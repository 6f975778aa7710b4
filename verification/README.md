# Verified model of the transcription gateway

The repository is a speech-to-text service: a GigaAM pipeline (denoising, chunking, recognition,
alignment, speakers, segments), a gateway with a job queue in front of two GPU engines that must not
be loaded together, tariffs and cost reports, and a bootstrap that fills the model cache. This project
models the logic between the neural networks and proves what it keeps, in Dafny 4.11. `dafny verify
dfyconfig.toml` checks all of it.

How it is built:

- Code that computes is a function; code that changes things step by step is a method on a class or an
  array, proved equal to a function of the old state, and the properties are lemmas about that function.
  `WordNode` is the mutable word record of the pipeline, `Node` the value it denotes at a moment.
- What such a function computes is said a second time without it, in the terms of its input: where a denoised sample
  comes from (`Crossfade`), which stretches are chunks (`VadCoverage`), what times a word has (`AlignedTimes`,
  `SpreadTimes`), what a segment says (`SegmentTexts`), why a job has its outcome (`JobHistory`).
- Times are exact reals in alignment and speaker assignment, sample positions (16 kHz) in chunking,
  sample indices in denoising, whole seconds in the job queue and in the cost logs, day numbers in tariffs.
- What the code asks of others is a parameter with a stated contract. The denoiser keeps the length of
  what it answers and may run out of memory at any call. The voice detector answers ordered, disjoint
  intervals inside its input. The aligner answers spans that are non-empty and in order (their number
  may be wrong, and either of its two calls may fail). Downloads, requests and SQL statements may fail at
  every point given by an oracle. Character classes, lower-casing and the vocabulary are parameters.
- The job queue is a machine of atomic steps (one SQL statement, or one stretch of code between two
  awaits, each). A run is any list of steps, so a statement about all runs is one about every interleaving.
  A step that is not enabled changes nothing. `process_job` and a pass of the cleaner are methods too, and
  lemmas show that their effects are runs of the machine.

Files, in the order of the data: `Words`, `Denoise`, `Crossfade`, `VadChunking`, `VadCoverage`, `ParseText`,
`Anchors`, `Interpolation`, `SpreadClusters`, `SpreadTimes`, `Alignment`, `AlignChunks`, `AlignedTimes`,
`SpeakerLabels`, `Segments`, `SegmentTexts`, `Pipeline`; `Pricing`, `Costs`; `JobProtocol`, `JobSafety`,
`JobFailures`, `JobHistory`, `JobGateway`, `Hallucinations`, `Subtitles`; `Bootstrap`, `BootstrapSafety`.

What turned out not to hold as one might read it, with the exact condition that is proved instead:

- `_spread_clusters` can leave the last word of a chunk with end < start. Words never overlap in any case;
  every word has start <= end exactly when the crammed run at the end of the chunk, if there is one, has its
  last 0.10 s slot inside the chunk (`TailFits`, decided on the input). `NoRoomWitness` is an input without room.
- The header of `gigaam/pipeline/alignment.py` (line 5) promises that no recognised text is dropped. `_parse_text`
  drops runs of punctuation that touch no word, unless the text has no word at all; `NothingLost` is the exact
  condition, `LoneMarkLost` an input.
- `API_admin_pricing.md` (line 11) says that a new tariff closes any open one. The code closes only open rows that
  begin earlier: all of them are closed exactly when the tariff is not dated before another of its client
  (`ClosesUnlessBackDated`); `BackDatedLeavesTwoOpen` is an input. The lookup is the step function all the same.
- With overlap >= window length, and more than one window to do, no turn of the denoising loop reaches the end
  (`ReachesEnd`). With equality the first window is repeated for ever; with a greater overlap pos falls below 0,
  where slices count from the back, and the loop can be left, if at all, only by an exception.
- A completed job can become failed, when logging it fails afterwards (`CompletedCanFail`). An outcome is final unless
  the log entry of that very job fails (`OutcomeIsFinal`); at any moment it is still open if and only if it is not
  failed and a worker has still to write the entry, or has failed to and not yet recorded it (`OutcomeOpen`).
- A row that comes late can find its file gone, or lose it at once (`LateRowLosesFile`): a pending or processing row
  loses its file to the cleaner if and only if the cleaner had chosen the file before the row came
  (`LostOnlyIfChosen`), and for a file of a given age this can happen if and only if the age is over a day
  (`AgeDecides`). The deletion of expired rows ignores their status, so a job still being worked on loses the
  protection of its file after a day (`ExpiredLosesFile`).
- Both engines can be in memory: the gateway knows nothing of an engine that was loaded before it started
  (`NeverBothLoaded` is an equivalence), it takes an engine for unloaded even if the unload call failed
  (`FailedUnloadLoadsBoth`), and it frees the lock when a request times out though the engine may go on with it
  (`GivenUpLoadsBoth`). Nothing else leads there in any run.
- A displayed price per minute times the displayed minutes is the displayed total only if no unpriced minutes
  are among them (`DisplayedRate`, with `UnpricedMinuteShown`).
- A caption of several lines is read back whole (`TwoLinesWhole`), but one with an empty line inside ends there, a
  carriage return comes back as a newline, and in WebVTT a line that holds "-->" ends the cue. A file reads back as
  the cues it was printed from if and only if no caption has any of these (`RoundTrip`).

## Model

| member | source | states |
|---|---|---|
| Denoise.AdaptivePartition | gigaam/pipeline/denoise.py:51-107 | Whatever runs out of memory and when: the enhanced slices follow each other from the start of the input, partition it if the whole succeeds, and the output is their outputs in order; no slice from halving is below the minimum |
| Denoise.AdaptiveLength | gigaam/pipeline/denoise.py:51-107 | Output length is input length, however the slice was halved |
| Denoise.AdaptiveBetween | gigaam/pipeline/denoise.py:51-107 | Samplewise bounds of the enhancer hold of the joined result, for any pattern of failures |
| Denoise.Denoiser.EnhanceOne | gigaam/pipeline/denoise.py:51-107 | The recursion terminates, and on every exit, failures included, `get_device` and the model's device are back where they were; result and calls are those of the recursion |
| Denoise.LaterWindow | gigaam/pipeline/denoise.py:130-168 | Each later window is longer than the overlap and at most one chunk long; its crossfade spans exactly `overlap` samples that are already written |
| Denoise.StitchedHull | gigaam/pipeline/denoise.py:110-170 | Every stitched sample lies within any bounds on the windows that cover it: a convex combination of their values there |
| Denoise.SomeWindowCovers | gigaam/pipeline/denoise.py:130-168 | No sample is left out: each lies in some window |
| Denoise.WindowsFromLaid | gigaam/pipeline/denoise.py:130-168 | The windows are a hop apart, reach exactly the end, and their number is 1 + ceil((n - chunk) / hop) |
| Denoise.WindowPositions | gigaam/pipeline/denoise.py:130-168 | The k-th window begins where pos stands in the k-th turn of the loop and ends where that turn's slice does |
| Denoise.WindowedBetween | gigaam/pipeline/denoise.py:110-170 | Denoising keeps the length of the recording and the enhancer's bounds, however it is cut into windows and halves |
| Denoise.WindowedPointwise | gigaam/pipeline/denoise.py:110-170 | A pointwise enhancer gives exactly the pointwise image: crossfades leave no trace |
| Denoise.ReachesEnd | gigaam/pipeline/denoise.py:121-168 | Following pos through the turns of the loop: some turn's window reaches the end, so that the loop breaks off, if and only if the overlap is smaller than the window or one window is enough; with overlap = window pos stays 0, with a greater one it falls below 0 and keeps falling |
| Denoise.Denoiser.EnhanceWindowed | gigaam/pipeline/denoise.py:110-170 | The loop over one output buffer computes the stitching of those windows, which fade into each other as `Crossfade.WindowFades` says, and restores the device state |
| Denoise.Paste | gigaam/pipeline/denoise.py:145-163 | One window into the buffer: over its head a linear fade from the old samples to the new, copy of the rest, everything else as it was |
| Crossfade.WindowFades | gigaam/pipeline/denoise.py:142-163 | For any overlap smaller than the window: what each window does to the buffer, sample by sample. Its overlap fades linearly from the old samples to the new ones, the rest is copied, nothing else changes |
| Crossfade.FadeEnds | gigaam/pipeline/denoise.py:133-158 | The fade begins with the old sample and ends with the new one |
| Crossfade.WindowedFades | gigaam/pipeline/denoise.py:110-170 | The denoised recording: each window holds what the enhancer made of its own stretch, and every sample is that of the one window over it, or the linear mix of the two that meet there, by its place in the overlap |
| Crossfade.SlicesFromCalls | gigaam/pipeline/denoise.py:51-107 | Each slice was answered by one call: on the model's device, or on the CPU after that call ran out of memory on a slice too short to halve; slices arise by halving |
| Crossfade.RefusedByCall | gigaam/pipeline/denoise.py:51-107 | No answer only after a call that failed otherwise, or after the CPU refused too |
| VadChunking.SpeechInside | gigaam/pipeline/vad_chunking.py:49-72 | Segments are ordered, disjoint, inside the audio, at least one; of several, each is shorter than the whole |
| VadChunking.LongEnoughKeeps | gigaam/pipeline/vad_chunking.py:66-71 | Exactly the detected stretches over 0.05 s are kept |
| VadChunking.ForcedCut | gigaam/pipeline/vad_chunking.py:75-98 | Over 24.9 s and inside the audio, no midpoint fallback: the cut is the centre of the first least-energy window, at least 12.525 s and less than 24.9 s after the start, and more than 0.1 s before the end |
| VadChunking.SplitLongGood | gigaam/pipeline/vad_chunking.py:101-128 | The recursion ends; pieces are ordered, disjoint, inside, at most 24.9 s and not empty |
| VadChunking.FinerSplitIsTaken | gigaam/pipeline/vad_chunking.py:110-121 | Several finer segments are always used: the re-check of their pieces succeeds |
| VadChunking.ForcedTiles | gigaam/pipeline/vad_chunking.py:125-128 | Where the detector finds no finer split of this segment nor of what each cut leaves to its right, the pieces tile the segment and only right parts are cut again: at most 1 + length / 12.525 s pieces |
| VadChunking.SplitLongSegment | gigaam/pipeline/vad_chunking.py:101-128 | The recursive method computes that splitting |
| VadChunking.ChunksGood | gigaam/pipeline/vad_chunking.py:131-143 | Chunks of any recording: at least one, ordered, disjoint, inside it, at most 24.9 s: the assertion never fires |
| VadChunking.ChunkAudio | gigaam/pipeline/vad_chunking.py:131-158 | Chunk records are numbered in order, each with exactly its own samples, and they are the recording's pieces; none if there is no detector |
| VadCoverage.ChunksAre | gigaam/pipeline/vad_chunking.py:101-139 | A stretch is a chunk if and only if it is a piece of a detected stretch over 0.05 s, or of the whole recording if there is none: the stretch itself up to 24.9 s, else a piece of its finer stretches if several are detected, else of what its cut leaves left or right |
| VadCoverage.ChunksKeepSpeech | gigaam/pipeline/vad_chunking.py:49-143 | No speech is lost: each detected stretch over 0.05 s is a chunk, or covered by chunks where nothing finer is detected; where several finer ones are, each of these over 0.05 s is. And each chunk lies in a detected stretch, and in a finer one if there are several |
| VadCoverage.StretchesAre | gigaam/pipeline/vad_chunking.py:66-71 | The stretches that count are the detector's over 800 samples |
| VadCoverage.QuietCut | gigaam/pipeline/vad_chunking.py:75-98 | The forced cut is the first place of the search, in samples of the recording, with the least energy in the 0.15 s around it |
| VadCoverage.SumSquaresAdds | gigaam/pipeline/vad_chunking.py:90-95 | That energy is the sum of the squares: it adds up over parts and counts a sample with its square |
| ParseText.ParseKeepsText | gigaam/pipeline/alignment.py:81-104 | The words write out exactly the surviving characters in order; a text without letters is one word |
| ParseText.ParseEmptyIffBlank | gigaam/pipeline/alignment.py:81-104 | No words if and only if the text is blank; no word is without letters |
| ParseText.MatchesNonEmptyLetters | gigaam/pipeline/alignment.py:84-101 | Each word's letters are the characters at its recorded position |
| ParseText.NothingLost | gigaam/pipeline/alignment.py:81-104 | Of the parsed words: only spaces are lost if and only if the text has no letter at all or every run of punctuation touches one |
| ParseText.ParsedStand | gigaam/pipeline/alignment.py:84-101 | Each word stands in the text with its own marks: all letters of its run, all marks after them, and those before them back to a space or the start; words follow each other without overlap |
| ParseText.StripMeans | gigaam/pipeline/alignment.py:102-103 | Stripping cuts off space alone, and all of it at both ends |
| ParseText.LoneMarkLost | gigaam/pipeline/alignment.py:81-104 | "a - b" parses to words that write out "ab": the mark is lost |
| Anchors.BuildCharTargets | gigaam/pipeline/alignment.py:113-127 | Targets are the vocabulary ids of all words in order, and each word's span is where its own stand |
| Anchors.MapAlignable | gigaam/pipeline/alignment.py:158-182 | Exactly the words with spans get an anchor, at their own position among all words |
| Anchors.AnchorFromSpans | gigaam/pipeline/alignment.py:168-181 | An anchor runs from its word's first target to its last, inside the audio, start before end |
| Anchors.AnchorConfidence | gigaam/pipeline/alignment.py:178-181 | A word's score is the mean of its characters' scores, within any bounds on them; it is marked low_conf exactly below the threshold |
| Anchors.AnchorMapOrdered | gigaam/pipeline/alignment.py:158-182 | Monotone spans give anchors that do not overlap, in spoken order, inside the audio |
| Interpolation.GroupRuns | gigaam/pipeline/alignment.py:197-207 | Runs are the maximal stretches of consecutive positions, and nothing is left out |
| Interpolation.SortedAscending | gigaam/pipeline/alignment.py:193-194 | Sorting gives the same positions in ascending order |
| Interpolation.RunInterpolated | gigaam/pipeline/alignment.py:209-221 | All words of a maximal run share the gap between the neighbouring anchors, one step apart |
| Interpolation.InterpolateOov | gigaam/pipeline/alignment.py:185-222 | Every position asked for, and no other, gets a new node at its slot in its gap |
| Alignment.EvenlyOrdered | gigaam/pipeline/alignment.py:143-155 | The fallback distribution is in order inside the audio |
| Alignment.EvenlyTiles | gigaam/pipeline/alignment.py:143-155 | Its words tile the chunk from 0 to the end in equal shares |
| Alignment.EvenlyDistribute | gigaam/pipeline/alignment.py:143-155 | The loop produces that distribution, one new node per word |
| Alignment.InterpolatedBetween | gigaam/pipeline/alignment.py:209-221 | An interpolated word sits between the nodes before and after it |
| Alignment.CompletedOrdered | gigaam/pipeline/alignment.py:339-349 | Anchors and interpolated words together are in order, start <= end <= next start, inside the audio |
| Alignment.TargetsAreUnmapped | gigaam/pipeline/alignment.py:341-344 | Words outside the vocabulary and words without anchor are together exactly the unmapped ones, each once |
| Alignment.AlignedOrdered | gigaam/pipeline/alignment.py:251-349 | On every branch (nothing alignable, no targets, either aligner call failing, wrong span count, normal) nodes are in order inside [0, duration] |
| Alignment.AlignedKeepsWords | gigaam/pipeline/alignment.py:251-349 | On every branch: exactly one node per parsed word, in spoken order, with its text |
| Alignment.AlignChunk | gigaam/pipeline/alignment.py:251-349 | The method with all its branches computes that, with new nodes only |
| SpreadClusters.SpreadInPlace | gigaam/pipeline/alignment.py:225-248 | The in-place pass over start and end computes the spreading function |
| SpreadTimes.SpreadLands | gigaam/pipeline/alignment.py:225-248 | Only words in crammed runs of three or more move. A moved word stands midway between its neighbours' starts, at least 0.10 s from each; the last word has as much room to the chunk's end, unless that is less than 0.10 s; an end that is not overtaken stays |
| SpreadTimes.SpreadEnds | gigaam/pipeline/alignment.py:242-244 | An overtaken word ends where the next one begins, the last one a neighbour's distance after its start, and never after the chunk |
| SpreadTimes.NoneCrammed | gigaam/pipeline/alignment.py:225-248 | Afterwards no run of three or more words is crammed below 0.10 s each |
| SpreadClusters.RespacedAt | gigaam/pipeline/alignment.py:234-245 | In a re-spaced cluster neighbours are exactly one step, at least 0.10 s, apart; starts only move later |
| SpreadClusters.SpreadKeepsWords | gigaam/pipeline/alignment.py:225-248 | Only times change, and starts only move later |
| SpreadClusters.SpreadIdempotent | gigaam/pipeline/alignment.py:225-248 | One pass reaches the fixpoint: no position begins a crammed run any more, and a second call changes nothing, whatever duration it is given |
| SpreadClusters.SpreadOrder | gigaam/pipeline/alignment.py:225-248 | end <= next start and the chunk's bounds are kept always; start <= end for all words if and only if the tail run fits |
| SpreadClusters.NoRoomWitness | gigaam/pipeline/alignment.py:237-244 | Three words at the end of a 0.1 s chunk: the last one comes out with start after end |
| AlignChunks.AllWordsKept | gigaam/pipeline/alignment.py:352-380 | The global list holds every parsed word of every chunk exactly once and in order |
| AlignChunks.AllWordsOrder | gigaam/pipeline/alignment.py:352-380 | Over any list of chunks words never overlap, across chunk borders too; start <= end throughout if and only if every chunk's tail has room |
| AlignChunks.AlignAll | gigaam/pipeline/alignment.py:352-380 | The loop that aligns, spreads and shifts the words in place produces that list |
| AlignedTimes.TargetsAre | gigaam/pipeline/alignment.py:113-127 | The aligner's targets are the vocabulary ids of the lower-case characters of the words it covers, in order; word i's begin where those of the words before it end |
| AlignedTimes.AlignedTimes | gigaam/pipeline/alignment.py:158-308 | With as many spans as targets, a word's start times the number of frames is the first frame of its first character times the audio's length, and so for its end |
| AlignedTimes.AlignedScores | gigaam/pipeline/alignment.py:178-181 | Its score is the mean of its characters' scores, cut off at 0 and 1; marked exactly below 0.60 |
| AlignedTimes.ScoreSumAdds | gigaam/pipeline/alignment.py:178 | The sum behind the mean adds up over parts |
| AlignedTimes.AlignedMidway | gigaam/pipeline/alignment.py:185-222 | A word without targets stands midway between the end of the word before and the start of the one after (or the chunk's ends), with score 0.5 and marked unaligned |
| AlignedTimes.AlignedEvenly | gigaam/pipeline/alignment.py:291-339 | With words to align but no targets, a failing aligner or a wrong number of spans, the words share the chunk equally from 0 to its end, with score 0.5 and marked unaligned |
| AlignedTimes.AlignedFields | gigaam/pipeline/alignment.py:130-140 | On every branch a node carries its own word's text and marks, and no speaker |
| AlignedTimes.GlobalTimes | gigaam/pipeline/alignment.py:365-372 | A word that is not crammed is reported at its chunk's start plus its times in the chunk |
| AlignedTimes.GlobalLands | gigaam/pipeline/alignment.py:365-372 | A crammed one is spread as `SpreadTimes.SpreadLands` says, in the time of the recording, up to the end of its chunk |
| SpeakerLabels.HalfInsideHoldsMidpoint | gigaam/pipeline/intersection.py:17-30 | Overlap of at least half the word implies that its midpoint lies in the segment |
| SpeakerLabels.PickSpeakerIow | gigaam/pipeline/intersection.py:33-60 | The search by overlap or midpoint answers a query of the midpoint alone |
| SpeakerLabels.LabelOrderFree | gigaam/pipeline/intersection.py:33-60 | The same label for every permutation of the diarization |
| SpeakerLabels.ShortestWins | gigaam/pipeline/intersection.py:45-60 | A candidate shorter than every other by the tolerance names the speaker |
| SpeakerLabels.OverlapNamesTied | gigaam/pipeline/intersection.py:51-59 | A second segment, a copy included, as short as the shortest gives the overlap label, in which the speakers of all such segments stand, each once and in order, with an underscore between neighbours |
| SpeakerLabels.NoSegmentUnknown | gigaam/pipeline/intersection.py:35-47 | No segment around the midpoint: no candidate and the unknown label |
| SpeakerLabels.AssignSpeakers | gigaam/pipeline/intersection.py:63-70 | Every word gets its label in place, and nothing else of it changes |
| Segments.GroupsPartition | gigaam/pipeline/intersection.py:80-135 | The groups, one after the other, are the words |
| Segments.GroupsCutAtBorders | gigaam/pipeline/intersection.py:122-134 | Cuts fall exactly at speaker changes (when diarizing) and after sentence ends |
| Segments.AssembledSegments | gigaam/pipeline/intersection.py:93-120 | Ids are 0..k-1; a segment has text, its words are one group's, and all of them have its speaker when diarizing |
| Segments.TextBlank | gigaam/pipeline/intersection.py:93-100 | A group is left out exactly when all its words are blank |
| Segments.AssembledKeepsWords | gigaam/pipeline/intersection.py:80-135 | For non-blank words the segments' words concatenate to the input |
| Segments.AssembledOrdered | gigaam/pipeline/intersection.py:80-135 | Ordered words give segments in order that do not overlap |
| Segments.AssembleSegments | gigaam/pipeline/intersection.py:80-135 | The loop with its flush computes those segments |
| Words.JoinSpells | gigaam/pipeline/intersection.py:97 | Joined parts stand in the text one after the other, from its start to its end, one separator between neighbours |
| SegmentTexts.TextSpells | gigaam/pipeline/intersection.py:97 | The text of words that are not blank: each one's own characters, in order, one space between neighbours |
| SegmentTexts.AssembledText | gigaam/pipeline/intersection.py:93-120 | Each segment's text is spelled in that way by its own words, it starts with the first and ends with the last of them |
| SegmentTexts.ReportedFields | gigaam/pipeline/intersection.py:101-112 | The segments' words, one after the other, are the words with their texts, times, scores and tags |
| SegmentTexts.BorderMeans | gigaam/pipeline/intersection.py:122-134 | Two neighbours are separated exactly if diarization gives them different speakers, or the first ends with a full stop, an exclamation or question mark or an ellipsis, space aside |
| Pipeline.ChunkingFeedsAlignment | gigaam/pipeline/orchestrator.py:104-126 | What chunking leaves is what alignment needs |
| Pipeline.EndToEnd | gigaam/pipeline/orchestrator.py:120-135 | From recognised chunks to segments: every word once and in order; with room in every chunk, segments in time order without overlap |
| Pipeline.EndToEndText | gigaam/pipeline/orchestrator.py:120-135 | From chunks to segments: each segment reads as its words do, and has their times |
| Pipeline.EndToEndSpeaker | gigaam/pipeline/orchestrator.py:120-135 | A segment's speaker is the label of each of its words at the word's times, none without diarization |
| Pipeline.RunPipeline | gigaam/pipeline/orchestrator.py:49-146 | The whole run from the cleaned recording: it works on the chunks cut from it and recognised, which keep all detected speech and stand at 16000 samples a second; every word recognised in them is reported once and in order; with room in every chunk segments are in time order without overlap; without any word the chunks' texts go out |
| Pipeline.FallbackSegments | gigaam/pipeline/orchestrator.py:30-46 | Without any word, the chunks with text go out in order, numbered from 0 |
| Pipeline.FallbackOrdered | gigaam/pipeline/orchestrator.py:30-46 | Those segments are in time order without overlap, with ids 0..k-1, without words and with an unknown speaker if diarizing |
| Pipeline.FallbackKeepsTexts | gigaam/pipeline/orchestrator.py:30-46 | Each chunk with text has its own segment, with its times and its text |
| Pricing.PricingTable.CreateClientPricing | gateway/db.py:484-551 | Close then insert; a duplicate key undoes the closing as well; an unknown client changes nothing |
| Pricing.CreateAnswers | gateway/db.py:484-551 | The answer is the added row, with the rates, from the day asked for or today; other rows keep all but the last day, which only open rows of the client that begin earlier are given, the day before; refusals for an unknown client or a taken first day, and only these, change nothing |
| Pricing.PricingTable.GetActiveClientPricing | gateway/db.py:554-573 | A row of the table that is active and begins no earlier than any other active one; none if and only if none is active |
| Pricing.RunConsistent | gateway/db.py:511-548 | After any requests, keys are unique and each closed row's last day is the day before a later row of the client begins |
| Pricing.LatestIsOpen | gateway/db.py:511-548 | The row with a client's latest first day is open |
| Pricing.ClosesTheOpen | gateway/db.py:511-521 | A created tariff closes all other rows of its client if and only if every open one begins before it |
| Pricing.ClosesUnlessBackDated | gateway/db.py:511-521 | In any reachable table: if and only if no row of the client begins on a later day |
| Pricing.BackDatedLeavesTwoOpen | gateway/db.py:511-521 | Tariffs from day 10 and then from day 5 leave two open rows |
| Pricing.RunIsStep | gateway/db.py:484-573 | For any requests in any order, back-dated and refused ones included: the lookup is the step function of the accepted tariffs |
| Pricing.CreateEffect | gateway/db.py:484-551 | A new tariff changes the answer exactly from its first day until the client's next one |
| Pricing.OrderFree | gateway/db.py:484-573 | The same requests in any order give the same answers on every day |
| Costs.CostIsStep | gateway/db.py:198-209 | The lateral join prices each log by the step function at its day, in every total, count and rate |
| Costs.AdjacentRanges | gateway/db.py:212-240 | A date range and the one after it add up to the joined range: counts, minutes, totals, rates and least rate |
| Costs.KeepsDays | gateway/db.py:212-240 | A query keeps the logs of its client from the first to the last day, both included |
| Costs.LoneLog | gateway/db.py:243-272 | One log: its audio seconds at the audio rate of its day, its speech seconds at the speech rate, per minute |
| Costs.LogsAdd | gateway/db.py:243-272 | Counts, seconds and totals of two lists of logs add up, and their rates are put together |
| Costs.LineSays | gateway/db.py:425-481 | A line shows the minutes of both sides in their places, and for each its one rate and total, its total alone, or nothing without a charge |
| Costs.ReportSumsToSummary | gateway/db.py:405-481 | By-client aggregates sum to the summary for the same dates |
| Costs.AnalyticsByClient | gateway/db.py:425-481 | Exactly the clients with logs in the range have a line, one each: their own summary; the lines are the groups that sum to the summary of all |
| Costs.EarlierBillsStand | gateway/db.py:484-551 | A new tariff leaves bills of other clients and of earlier days as they were |
| Costs.CostIsOrderFree | gateway/db.py:198-209 | The order in which tariffs were entered does not change a bill |
| Costs.DisplayedRate | gateway/db.py:275-339 | A displayed rate is the one rate of the priced logs and total = priced minutes x rate; total = all minutes x rate if and only if the unpriced minutes or the rate are zero |
| Costs.UnpricedMinuteShown | gateway/db.py:275-339 | Two minutes, one of them before the tariff began: rate 2 and total 2 are displayed |
| Costs.NoDisplayedRate | gateway/db.py:275-278 | No rate is displayed if and only if no log is priced or two are priced differently |
| Costs.RatesAreThePrices | gateway/db.py:311-339 | The distinct rates are the prices of the selected logs, and MIN is the least of them |
| Costs.AbsentIsFree | gateway/db.py:243-272 | With non-negative prices and durations, a pricing option that is left out hides a total of zero |
| JobGateway.Gateway.GetNextPendingJobAtomic | gateway/db.py:634-655 | Takes a pending job than which none is older, and marks it processing; none only if nothing is pending |
| JobGateway.Gateway.ProcessJob | gateway/main.py:131-293 | Rows, files and GPU state after process_job, for every way in which path check, unload, inference, saving, logging and removal may turn out |
| JobGateway.ProcessJobIsRun | gateway/main.py:131-293 | process_job, uninterrupted, is a run of the machine's steps |
| JobGateway.RowAfter | gateway/main.py:131-279 | Completed, filtered, failed or still processing: each in exactly which cases; no other row changes |
| JobGateway.Gateway.CleanUp | gateway/main.py:312-350 | One pass removes exactly the listed files that are over a day old, named by no pending or processing row left after expiry, and removable |
| JobGateway.CleanUpIsRun | gateway/main.py:312-345 | That pass, uninterrupted, is a run of the machine's expiry, check and removal steps |
| JobSafety.OneInference | gateway/main.py:143-189 | In every interleaving of any number of workers: at most one holds the GPU, and inference is on the current engine; no other engine is at work unless a request was given up with its engine going on |
| JobSafety.NeverBothLoaded | gateway/main.py:144-189 | While unloads succeed and no engine goes on with a request given up, no run has both engines loaded, refused inferences included, if and only if none was loaded at the start |
| JobFailures.FailedUnloadLoadsBoth | gateway/main.py:148-152 | After one failed unload a run from an empty GPU has both engines loaded |
| JobFailures.GivenUpLoadsBoth | gateway/main.py:144-189 | After one request that is given up, as at its time-out, and with every unload successful: the next job infers on the other engine while the first is still at work, and both are loaded |
| JobSafety.ClaimedInTurn | gateway/db.py:634-655 | Over every run each job is claimed at most once, and jobs are claimed in the order of creation |
| JobSafety.NeverPendingAgain | gateway/db.py:634-675 | A claimed job is never pending again, and an outcome can only change to failed |
| JobSafety.OutcomeIsFinal | gateway/main.py:239-279 | In every run an outcome stays as it is while the row is there, unless the log entry of that very job fails |
| JobFailures.OutcomeOpen | gateway/main.py:239-279 | At any moment of any run some continuation changes an outcome if and only if it is not failed and a worker has that job with its log entry still to write, or its failure still to record |
| JobFailures.CompletedCanFail | gateway/main.py:239-279 | A run in which a completed job becomes failed: the log entry after its outcome fails |
| JobSafety.NothingLeftProcessing | gateway/main.py:191-293 | When no worker has a job, the only rows left processing are those whose failure could not be recorded |
| JobHistory.OutcomeHasCause | gateway/main.py:131-279 | In every run: a completed job's engine answered and its result was saved unfiltered, a filtered one's as filtered; of a failed one the path was refused, the engine did not answer, or a later failure was recorded |
| JobHistory.WorkersOwnRow | gateway/db.py:634-655 | In every run a worker has the file and the engine of its job's row |
| JobHistory.RowLives | gateway/db.py:677-692 | In every run a row stays for a day, and an expiry after that takes it |
| JobHistory.EnginesComeAndGo | gateway/main.py:144-189 | An engine comes into memory as a worker on it infers or as it goes on with a request given up, and leaves only by a successful unload while it is the current one |
| JobHistory.FilesGo | gateway/main.py:281-345 | A file goes exactly as its insertion fails, as its job's worker removes it, or as the cleaner removes its choice |
| JobHistory.RowsCome | gateway/db.py:606-617 | A row comes as an upload is inserted: pending, for its file and engine, made now |
| JobSafety.CleanerSpares | gateway/main.py:312-350 | The cleaner never removes the file of a pending or processing row, unless it had chosen or removed the file before the row came; a worker loses such a file only if its row expired; rows of other files do not matter |
| JobSafety.InputIsThere | gateway/main.py:281-345 | With the same exception, the file of every pending job and of every job being worked on is still there |
| JobSafety.MissedIsOld | gateway/main.py:333-338 | Such an exception is a row that came more than a day after its file was stored |
| JobFailures.LostOnlyIfChosen | gateway/main.py:336-345 | At any moment of any run, a pending or processing row whose file is there can lose it to the cleaner if and only if the cleaner has chosen the file already |
| JobFailures.AgeDecides | gateway/main.py:333-345 | For every age of a file at the insertion of its row: some run leaves such a row pending without its file if and only if the age is over a day |
| JobFailures.LateRowLosesFile | gateway/main.py:336-345 | For every age over a day, a run that ends with the row pending and the file gone |
| JobFailures.ExpiredLosesFile | gateway/db.py:677-692 | Expiry deletes processing rows, after which the file of a job in hand, whose row had come in time, can be removed |
| Hallucinations.Filter | gateway/main.py:207-239 | Rejected segments go; the status says filtered and the text is rebuilt if and only if there were any |
| Hallucinations.RejectedMeans | gateway/main.py:213-230 | Rejected if and only if the log probability is under the limit, or there are more characters than the limit times the duration; without duration only under a negative limit |
| Hallucinations.RebuiltText | gateway/main.py:232-235 | The rebuilt text is spelled by the texts let through, in order, one space between neighbours |
| Hallucinations.KeptPlaces | gateway/main.py:213-232 | Exactly the passing segments stay, in order, each as often as it was |
| Hallucinations.FilteredIsClean | gateway/main.py:213-232 | What was let through passes again: nothing is rejected the second time |
| Hallucinations.LooserKeepsMore | gateway/main.py:222-230 | A stricter filter after a looser one is the stricter filter |
| Hallucinations.LimitsSeparate | gateway/main.py:222-230 | The two limits work apart: one after the other, in either order, is both at once |
| Subtitles.FieldsRecompose | gateway/main.py:557-569 | For every time the fields are in range and recompose to floor(1000 t) |
| Subtitles.StampBack | gateway/main.py:557-569 | A printed time stamp reads back as the whole milliseconds, for SRT and WebVTT |
| Subtitles.StampShape | gateway/main.py:557-569 | A stamp ends in two digits, a colon, two digits, a comma in SRT and a dot in WebVTT, and three digits |
| Subtitles.CaptionSays | gateway/main.py:522-543 | The speaker stands in brackets before the stripped text, and only if there is one |
| Subtitles.BlockAt | gateway/main.py:522-543 | The i-th cue: its number from 1 in SRT, its times read back to the whole milliseconds, its caption, an empty line |
| Subtitles.Render | gateway/main.py:522-543 | The loop prints the blocks in order, numbered from 1 in SRT |
| Subtitles.RoundTrip | gateway/main.py:522-543 | The file reads back as the same cues in the same order, by the formats' own rule for where a cue's text ends, if and only if no caption has an empty line inside, a carriage return or, in WebVTT, a line that holds "-->" |
| Subtitles.TwoLinesWhole | gateway/main.py:522-543 | A caption of two lines is among those read back, in either format |
| Bootstrap.PlanIsRepair | gigaam/bootstrap_models.py:289-299 | The plan repairs what is missing and nothing else; it is only the wheel check if and only if nothing is missing |
| Bootstrap.Retry | gigaam/bootstrap_models.py:89-111 | Succeeds if and only if a call within the attempts (at least one) does; delays double from call to call |
| Bootstrap.Service.EnsureModels | gigaam/bootstrap_models.py:434-611 | A run with failures and a crash anywhere: outcome, disk, health status, offline switch in every case, and list of missing artifacts |
| BootstrapSafety.ExportHasWeights | gigaam/bootstrap_models.py:372-385 | The export is reached only with weights on the volume |
| BootstrapSafety.NothingIsLost | gigaam/bootstrap_models.py:434-611 | Whatever happens in a run, nothing becomes missing, for this configuration or any other |
| BootstrapSafety.ManifestOnlyWhenComplete | gigaam/bootstrap_models.py:568-592 | A manifest is written only with nothing missing for the configuration in force, also when the run fails or crashes after writing it; any other run leaves the old one or one that does not parse |
| BootstrapSafety.ManifestSays | gigaam/bootstrap_models.py:568-592 | A new manifest names the configured models and choices, denoising as it is in force at the end, and Pyannote if and only if it is on the volume |
| BootstrapSafety.NextRun | gigaam/bootstrap_models.py:450-467 | After a run that wrote its manifest the next one takes the fast path; if the denoiser is wanted and not there, and only then, it plans exactly the denoiser and the wheel check |
| BootstrapSafety.OfflineStarts | gigaam/bootstrap_models.py:469-488 | Any number of offline starts leave the disk as it was, and a start is then healthy exactly when the cache was ready at first |
| BootstrapSafety.OneGoodRun | gigaam/bootstrap_models.py:490-592 | From any disk one run whose planned steps go well makes the cache ready |
| BootstrapSafety.OfflineHealthy | gigaam/bootstrap_models.py:450-488 | Without the network a start is healthy if and only if a manifest was written for the same configuration and all its artifacts are there |
| BootstrapSafety.Tried | gigaam/bootstrap_models.py:89-111 | A step goes on if and only if one of its tries does not fail, as many as configured, one for export and wheel check; if all fail the denoiser alone is done without |
| BootstrapSafety.WeightsGo | gigaam/bootstrap_models.py:411-522 | Weights that are there go if and only if a run exports the model with success and pruning is on and works |
| BootstrapSafety.RunsHonest | gigaam/bootstrap_models.py:434-611 | Over any starts with any configurations, failures and crashes, a manifest that parses never speaks of what is not there |
| BootstrapSafety.RunsOnlyRepair | gigaam/bootstrap_models.py:434-611 | Over any starts, what was on the volume is never missing again, for any configuration |

## Left out

- Neural inference, CUDA, ONNX, ffmpeg, resampling, file formats, HTTP routing, authentication, webhooks and logging: only the contracts above stand for them.
- Floating-point and decimal rounding: times, prices and energies are exact; chunk borders are whole samples, so truncation of seconds to samples does not show. Energies are compared as sums of squares, without the root and the added constant.
- Denoise.Denoiser.EnhanceWindowed: asks that the overlap be smaller than the window or one window be enough, because otherwise the loop of the source never reaches the end (`ReachesEnd`); what slices with negative bounds do there is not modelled.
- Segments.AssembleSegments: reads the words as values, since it changes none of them; `avg_logprob`, a mean of logarithms, is not part of a segment here.
- Crossfade.WindowedFades: asks for an overlap of at most half a window (2 s of 30 s by default), so that no more than two windows meet; for any overlap `Crossfade.WindowFades` says what each window does to what is there.
- SegmentTexts.AssembledText: asks for words that are not blank, which parsing never gives (`Pipeline.EndToEndText`).
- ParseText.ParseKeepsText: which characters are letters is a parameter; the white-space class is the one Python strips and matches.
- Pricing: a tariff's currency is always the one the code filters by, and row ids and creation times are not modelled.
- Costs: days are cut at midnight of one fixed time zone; deleting a client, and with it its logs, is not modelled.
- JobProtocol: one gateway process with any number of workers in it; restarts and cancelled tasks, which leave jobs processing, are not steps. An engine is told apart only by its name, so an engine still at work on a request given up is adrift once, however many such requests it has; a row's file name is new with each upload; SKIP LOCKED has no effect between atomic statements.
- JobGateway.Gateway.ProcessJob: stands for one worker that nobody interrupts; interleavings are the subject of JobSafety. Log entries and webhooks it sends are not modelled.
- Hallucinations.Filter: the sums of durations that go to the cost log are not modelled.
- Subtitles.RoundTrip: asks for times of at least zero, which the field lemma does not; its reader keeps the markup of a caption as text, and knows neither cue settings nor notes, which are not printed. A character with code 0 cannot stand in the stored result. The TSV printer is left out.
- Bootstrap.Service.EnsureModels: an artifact is a name that is there or not, as the code checks it, so a half-copied model with the right file name counts as present. The plan is made before the file lock is taken, as in the code, but only one process is modelled.
- BootstrapSafety.ExportHasWeights: loading the weights successfully is taken to put them on the volume; of the other steps success promises no artifact.
- Shared-path and URL checks, network scripts, Docker, certificates, WhisperX and the health dictionary: plumbing or easy members.
