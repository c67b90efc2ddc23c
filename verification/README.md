# Cassini: verified model of its algorithmic cores

Cassini records, publishes and annotates meetings. This project models the parts of it that are
algorithms rather than plumbing, and proves what their documentation promises or what their callers rely
on.

To verify: `dafny verify dfyconfig.toml`, with Dafny 4.11.

| file | what it models |
|---|---|
| `AnnotationDocument.dfy` | the annotations document, the writer's check, the canonical order |
| `AnnotationOps.dfy` | the eight operations, a batch, the next revision, as functions on values |
| `AnnotationEngine.dfy` | the same as an object changed in place, each method proved against its function |
| `AnnotationEffects.dfy`, `AnnotationBatches.dfy` | what each operation does, and what a whole batch does, said without the functions that compute it |
| `AnnotationInvariants.dfy`, `AnnotationMutation.dfy` | what every batch keeps; what the final check can still refuse |
| `AnnotationMerge.dfy`, `AnnotationUndo.dfy`, `AnnotationRetry.dfy`, `AnnotationLabels.dfy` | merging, undoing, retrying, labels and appearance |
| `AnnotationRuns.dfy` | every run of revisions while the audio under the document changes |
| `AnnotationStored.dfy` | stored revisions: validity over runs, retry, undo |
| `AnnotationExamples.dfy` | concrete documents: hypotheses that can be met, and inputs on which the code falls short |
| `EditDistance.dfy`, `Alignment.dfy` | edit scripts and their metric; the table with traceback, the two-row distance, the scores |
| `OggPackets.dfy` | Opus packets reassembled from Ogg pages |
| `HelloSniffer.dfy` | the chunk-fed reader of a WebSocket client stream |
| `Signaling.dfy` | the request table of the signalling client under concurrency |
| `AudioRotation.dfy` | the audio floor passed from bot to bot |
| `RtpSequence.dfy` | indices from 16-bit sequence numbers, the loss account, the reordering |
| `StorageCharts.dfy` | the bars of a storage chart and the grouping of failed attempts |
| `Sequences.dfy`, `Sorting.dfy`, `Division.dfy`, `Wrappers.dfy` | filters, stable sorting and string order, quotients, optional values and results |

## How the source is represented

- Library text functions that the annotation engine calls are the record `Text`. `strings.EqualFold` is an
  arbitrary equivalence, given by a representative of each class (`fold`), and `strings.ToLower` an arbitrary
  function (`lower`); the two are not related. Regular expressions, UTF-8, time and trimming are arbitrary
  predicates and functions. Only `TextOk` assumes anything of them, and only `FinalCheck` and the lemmas
  about runs and stored revisions use it.
- A tag's label is the field `name`, because `label` is a word of Dafny.
- Random ids are an oracle: operation `n` of a batch is given the ids a random source would answer
  (`mints(n)`), or none when the source fails. `FreshMints` says that nobody has used them.
- Absent pointers are `None`. `int64` positions and the revision are bounded and the revision wraps; counters
  elsewhere are unbounded.
- The JSON library is a function from a payload to what the sniffer looks at in it.
- `sort.SliceStable` is an insertion that never overtakes an equal element.
- Concurrent code is a state machine whose steps are the critical sections and channel operations.

## Where the code does less than its words

- The comment on `applyMarkOp` (cassini-annotations/ops.go:282-285) says that skipping an identical mark makes a
  retry safe. It is safe exactly when each mark by label finds, in the order the result is kept in, a tag that
  marks its target already (`RetryIff`); two labels that fold together can break it (`RetryCanAdd`, `RetryOfTwins`,
  `RetryOfCanonical`), unique labels or marks by id guarantee it.
- Undoing a batch of marks gives the tags back unless the batch defined a tag that dangling marks already
  named (`UndoInverse`, `UndoKeepsTag`).
- "Packets never recovered" (cassini-go-recorder/cmd/rtplogscan/main.go:92) is that number exactly when no packet from
  before the first one arrives (`LostAreMissing`, `EarlyPacketHidesLoss`).
- A sniffed header whose blank line ends past byte 65537 is refused or not depending on how the stream is cut,
  unless it is an upgrade and a frame after the header is refused in any case (`ChunkingIrrelevantIff`,
  `LateHeader`).
- The default bar width keeps every chart to at most sixty bars, but past 599940 days it is one the chart
  refuses (`DefaultIsLeast`, `DefaultRefused`).
- Merging A into B and then B into C covers what merging each into C covers, unless marks name a B that is not
  defined (`MergeOrder`, `MergesDoNotCommute`).

## Model

| member | source | states |
|---|---|---|
| AnnotationDocument.ValidateAnnotations | cassini-annotations/document.go:212-300 | the passes that collect ids accept exactly the documents that meet the order-free definition: unique ids, marks naming present tags, each part well formed, head and sizes in limits |
| AnnotationDocument.CheckTags | cassini-annotations/document.go:235-254 | the tag pass accepts exactly lists of well-formed tags with unique ids and collects those ids |
| AnnotationDocument.CheckItems | cassini-annotations/document.go:272-298 | the mark pass accepts exactly lists of well-formed marks with unique ids that name collected tags |
| AnnotationDocument.TagsCanonical | cassini-annotations/document.go:185-191 | with unique ids any ordered list of the same tags is the canonical one |
| AnnotationDocument.ItemsCanonical | cassini-annotations/document.go:192-207 | with unique ids any ordered list of the same marks is the canonical one |
| AnnotationDocument.CanonicalIsUnique | cassini-annotations/document.go:172-208 | canonical lists are equal exactly when the documents hold the same tags, or the same marks, in whatever order |
| AnnotationDocument.TagsInOrder | cassini-annotations/document.go:185-191 | in canonical order tags go by the lower-case label in byte order, then by id |
| AnnotationDocument.ItemsInOrder | cassini-annotations/document.go:192-207 | in canonical order marks of the whole meeting come first, then marks by start, end and id, an absent time counting as zero |
| Sorting.BelowMeans | cassini-annotations/document.go:188 | one string is below another where they first differ, or where it ends first |
| AnnotationEffects.ValidMeans | cassini-annotations/document.go:212-300 | the writer's check spelled out: format, revision, digest and namespace, 200 tags and 2000 marks, unique ids, marks on present tags, labels of 1 to 64 runes, titles of up to 200, actor ids of up to 256 bytes, ranges that are not empty and end within the recording |
| AnnotationEffects.UnmarkEffect | cassini-annotations/ops.go:339-347 | `unmark` takes out the marks with the id and no others, in order, and reports the id exactly when there was none; it is refused exactly without an id |
| AnnotationEffects.UnmarkTagEffect | cassini-annotations/ops.go:349-368 | `unmark-tag` takes out the marks of the tag, only that on the target if one is given, and reports the tag exactly when there was none |
| AnnotationEffects.UndoEffect | cassini-annotations/ops.go:370-378 | `undo-operation` takes out the marks that carry the operation id |
| AnnotationEffects.MarkEffect | cassini-annotations/ops.go:286-337 | `mark` is refused exactly for an illegal target or label or for a tag it can neither find nor define; it means the tag with the id, else the first with the label, else a new one, and leaves one mark of the target with it, made now by who asked unless it was there |
| AnnotationEffects.RelabelEffect | cassini-annotations/ops.go:382-411 | `relabel` gives the tag the trimmed label and changes nothing else; it is refused exactly for an illegal label or one another tag has; an absent tag is reported |
| AnnotationEffects.RestyleEffect | cassini-annotations/ops.go:413-442 | `restyle` gives the tag the colour and the icon asked for and changes nothing else; it is refused exactly outside the palettes or when neither is given; an absent tag is reported |
| AnnotationEffects.MergeEffect | cassini-annotations/ops.go:447-496 | `merge-tag` leaves every other mark, gives `into` the marks of the source whose target it lacks and drops the rest; `into` is defined with the label if absent; the refusals are exactly the stated ones |
| AnnotationEffects.TitleEffect | cassini-annotations/ops.go:503-524 | `set-title` clears for blank, keeps an equal title with its attribution, and attributes a new one to who asked, now |
| AnnotationEffects.UnknownEffect | cassini-annotations/ops.go:202-204 | any other operation is refused as invalid |
| AnnotationEffects.OpFailures | cassini-annotations/ops.go:186-211 | an operation fails only as invalid or for want of randomness |
| AnnotationBatches.BatchMeans | cassini-annotations/ops.go:172-267 | a batch is its operations one after the other up to the first refused; a tag gets its trusted starting look in the operation that creates it; at the end new tags get the last style for their label, unused tags go, and what was not found, added and removed is listed once each and in order |
| AnnotationBatches.StyledIsLast | cassini-annotations/ops.go:220-232 | a tag the batch created without a starting look comes out with the colour of the last style for its label and that style's icon or none; every other tag as it was |
| AnnotationBatches.UnmarkOutcome | cassini-annotations/ops.go:339-347 | a batch of one `unmark` removes the mark with the id, keeps every other and reports the id exactly when no mark had it |
| AnnotationBatches.UnmarkTagOutcome | cassini-annotations/ops.go:349-368 | a batch of one `unmark-tag` removes the marks of the tag, or that on the target, and no other |
| AnnotationStored.CanonicalStays | cassini-annotations/document.go:172-208 | canonical order taken twice is canonical order |
| AnnotationStored.OutcomeIsCanonical | cassini-annotations/ops.go:236 | the document a batch leaves is in canonical order |
| AnnotationEngine.Document.Clone | cassini-annotations/ops.go:618-645 | the copy is a new object with equal content, empty for no document |
| AnnotationEngine.Document.Canonicalize | cassini-annotations/document.go:175-208 | both lists end sorted by their comparators, hold what they held, and are the canonical lists |
| AnnotationEngine.Document.FindTag | cassini-annotations/ops.go:549-566 | the loop answers the tag an id or else a label stands for, or nothing |
| AnnotationEngine.Document.RemoveItems | cassini-annotations/ops.go:592-602 | exactly the unmatched marks are kept in order, and the count is the number removed |
| AnnotationEngine.Document.ApplyMark | cassini-annotations/ops.go:286-337 | in-place marking ends in the state, or with the refusal, of the value model |
| AnnotationEngine.Document.ApplyRelabel | cassini-annotations/ops.go:382-411 | in-place renaming ends in the state, or with the refusal, of the value model |
| AnnotationEngine.Document.ApplyRestyle | cassini-annotations/ops.go:413-442 | in-place restyling ends in the state, or with the refusal, of the value model |
| AnnotationEngine.Document.ApplyMerge | cassini-annotations/ops.go:447-496 | the two loops over covered and kept marks end in the state, or with the refusal, of the value model |
| AnnotationEngine.Document.ApplySetTitle | cassini-annotations/ops.go:503-524 | in-place titling ends in the state, or with the refusal, of the value model |
| AnnotationEngine.Document.InitializeTags | cassini-annotations/ops.go:212-218 | the loop over the tags gives trusted starting appearances once each |
| AnnotationEngine.Document.StyleTags | cassini-annotations/ops.go:220-232 | the nested loops over styles and tags give each created tag what its last matching style says |
| AnnotationEngine.Document.DropUnusedTags | cassini-annotations/ops.go:604-616 | the loops keep exactly the tags some mark names, in order |
| AnnotationEngine.ApplyBatch | cassini-annotations/ops.go:172-267 | the batch worked out in place on a copy gives the document and report of the value model and leaves the given document alone |
| AnnotationEngine.MutateBatch | cassini-annotations/mutate.go:15-49 | setting the fields of the outcome one by one gives the revision, or the refusal, of the value model |
| AnnotationInvariants.OpKeeps | cassini-annotations/ops.go:187-204 | each operation keeps unique ids, marks on present tags, targets in bounds, and absence of repeated marks; new ids are named or minted |
| AnnotationInvariants.BatchKeepsConsistent | cassini-annotations/ops.go:172-267 | every successful batch keeps those over its whole length and leaves no unused tag |
| AnnotationMutation.FinalCheck | cassini-annotations/mutate.go:15-49 | from a valid document with well-formed input the final check refuses exactly for too many tags or marks or a revision out of range |
| AnnotationMutation.BatchWellFormed | cassini-annotations/document.go:212-300 | a batch with well-formed input keeps every tag, mark and title well formed |
| AnnotationRuns.UnmarkedTargets | cassini-annotations/mutate.go:16-22 | a batch without a mark brings in no target that was not marked before |
| AnnotationRuns.RunStaysBound | cassini-annotations/mutate.go:15-49 | over every run from nothing, each range fits the audio the document names, and the revision counts the changing calls |
| AnnotationRuns.RunKeepsBinding | cassini-annotations/mutate.go:27-38 | over every run a set namespace never changes, and while marks remain the audio they were made against stays named |
| AnnotationUndo.OutcomeReportsDifference | cassini-annotations/ops.go:242-266 | nothing changed exactly when tags, marks and title are the same; added and removed are the differences of the id sets |
| AnnotationUndo.UndoInverse | cassini-annotations/ops.go:370-378 | a batch of marks followed by its undo restores title and marks, and the tags exactly when no mark of the batch asks for an id that marks name without its being defined |
| AnnotationUndo.UndoRestores | cassini-annotations/ops.go:370-378 | where marks name present tags the undo gives back the whole canonical document |
| AnnotationRetry.RetryIff | cassini-annotations/ops.go:282-337 | a batch of marks applied to its own result changes nothing exactly when each mark by label finds a tag that marks its target; it then reports nothing |
| AnnotationRetry.RetrySafe | cassini-annotations/ops.go:282-337 | it changes and adds nothing when no two labels of the first result fold together |
| AnnotationRetry.RetryByIdSafe | cassini-annotations/ops.go:549-557 | it changes and adds nothing when every mark names its tag by id, whatever the labels |
| AnnotationRetry.RetryCanAdd | cassini-annotations/ops.go:558-564 | for two tags with one label, listed later id first, no retry of a mark by that label leaves the document as it is |
| AnnotationStored.BoundStays | cassini-annotations/mutate.go:16-22 | a call with marks leaves the time bound of the recording what it was for the next call |
| AnnotationStored.RefusedForAudio | cassini-annotations/mutate.go:16-21 | a call ends with exit 5 exactly when it marks a document that keeps marks made against other audio |
| AnnotationStored.StoredMeans | cassini-annotations/mutate.go:22-49 | a stored revision has the content of the batch and the next number; its namespace is the one it had, else the one given, else a minted one; its audio is the call's unless marks of other audio are left, and only those lift the bound of time ranges |
| AnnotationStored.StoredRetryIff | cassini-annotations/mutate.go:15-49 | marks sent again to the revision they made leave that revision as it is exactly when each mark by label finds a tag that marks its target |
| AnnotationStored.StoredRetrySafe | cassini-annotations/mutate.go:24-26 | where labels are distinct under folding, what is stored after a retry is what was stored before it |
| AnnotationStored.RunStaysValid | cassini-annotations/mutate.go:45-47 | over every run from nothing each stored document passes the whole writer's check for the audio it names |
| AnnotationStored.RunFinalCheck | cassini-annotations/mutate.go:45-47 | over every run a well-formed call that changes something fails the final check exactly for too many tags or marks or a revision out of range |
| AnnotationStored.StoredUndo | cassini-annotations/mutate.go:15-49 | marks stored and then taken back, against whatever audio: two revisions later tags, marks and title are those from before; where there were marks, the revision number is all that differs from the canonical document |
| AnnotationMerge.MergeConservesCoverage | cassini-annotations/ops.go:476-495 | afterwards the target tag covers what both covered, the source nothing, others the same; marks change nothing but their tag; marks lost are the overlap |
| AnnotationMerge.MergeDistinctMarks | cassini-annotations/ops.go:476-495 | merging never makes two marks say the same thing |
| AnnotationMerge.MergeOrder | cassini-annotations/ops.go:447-496 | A into B into C covers what A into C and B into C covers exactly unless A is there, B is not, and marks name B |
| AnnotationLabels.LabelsStayDistinctIff | cassini-annotations/ops.go:305-317 | distinct labels stay distinct exactly when an operation does not define a tag by id under a taken label |
| AnnotationLabels.RelabelDistinct | cassini-annotations/ops.go:405-410 | a relabel never makes two labels alike |
| AnnotationLabels.StylingIsForCreation | cassini-annotations/ops.go:212-232 | unless an operation restyles it, a tag the document had keeps its look, one with a trusted start has that, any other new one has the colour and icon of the last style for its label |
| AnnotationLabels.RemovalIsExact | cassini-annotations/ops.go:339-378 | removing by any condition takes out exactly the marks that fail it, each as often as it was there, and reports exactly when there was none |
| AnnotationLabels.SetTitleOnce | cassini-annotations/ops.go:498-524 | setting the same title again changes nothing, not even who set it; the title is absent exactly for blank input |
| AnnotationExamples.FirstMark | cassini-annotations/ops.go:282-285 | on an empty document: repeating the first mark changes nothing and undoing it leaves nothing, so the hypotheses of retry and undo can be met |
| AnnotationExamples.FirstRevision | cassini-annotations/mutate.go:15-49 | the first mark of a meeting is stored, so the hypotheses of the final check can be met |
| AnnotationExamples.FirstRevisionAgain | cassini-annotations/mutate.go:15-49 | the first revision sent again stays revision 1, taken back it leaves revision 2 without tags and marks, so the hypotheses of the results on stored revisions can be met |
| AnnotationExamples.UndoKeepsTag | cassini-annotations/ops.go:604-616 | a document and a mark whose undo leaves a tag that was not there before |
| AnnotationExamples.RetryOfTwins | cassini-annotations/ops.go:558-564 | a document and a mark whose repetition never leaves the document as it is |
| AnnotationExamples.RetryOfCanonical | cassini-annotations/ops.go:558-564 | a document in canonical order and two marks whose repetition does not leave the result as it is |
| AnnotationExamples.MergesDoNotCommute | cassini-annotations/ops.go:464-475 | a document on which the two orders of merging cover different targets |
| AnnotationExamples.LabelTwice | cassini-annotations/ops.go:305-317 | a document and a mark by id that leaves two tags with one label |
| Sorting.SortedUnique | cassini-annotations/ops.go:244 | two ordered lists of the same elements are equal when only an element itself is neither below nor above it |
| EditDistance.NoScriptIsCheaper | harness/bin/score-stt-boundaries.py:26-28 | no edit script between two sequences costs less than the table's value |
| EditDistance.TraceIsOptimal | harness/bin/score-stt-boundaries.py:29-42 | the script read back spells both sequences, labels equal words as matches, and is a cheapest one |
| EditDistance.TraceBreaksTies | harness/bin/score-stt-boundaries.py:20 | of all cheapest scripts it is the one that prefers diagonal, deletion, insertion at every tie, read from the end |
| EditDistance.InsertionComesLast | harness/bin/score-stt-boundaries.py:20 | if a cheapest script can end with a match or a substitution the script read back does, and it ends with an insertion only if none can end otherwise |
| EditDistance.DistanceSymmetric | harness/bin/verify-smoke-transcript.py:27-29 | the distance does not depend on the order of its arguments |
| EditDistance.DistanceTriangle | harness/bin/verify-smoke-transcript.py:27-42 | going through a third text never saves an edit |
| EditDistance.DistanceBounds | harness/bin/verify-smoke-transcript.py:27-42 | the distance lies between the difference of the lengths and the longer one |
| EditDistance.DistanceZero | harness/bin/verify-smoke-transcript.py:27-42 | it is zero exactly for equal texts |
| Alignment.FillTable | harness/bin/score-stt-boundaries.py:21-28 | each cell of the table is the distance of the two prefixes |
| Alignment.Align | harness/bin/score-stt-boundaries.py:19-42 | the table and the walk back, which stays in the table and ends, give the preferred cheapest script |
| Alignment.Lev | harness/bin/verify-smoke-transcript.py:27-42 | two rows with the arguments swapped give the distance |
| Alignment.RatioIsShare | harness/bin/verify-smoke-transcript.py:60-62 | the ratio times the longer length is that length less the distance; it lies in [0, 1], is 1 exactly for equal texts that are not empty, and 0 for two empty ones |
| Alignment.ScoresAreOrdered | harness/bin/score-stt-boundaries.py:68-79 | errors are the distance, each token is counted once, exact recall is at most lexical recall, which is at most 1 |
| Alignment.ScoreMeans | harness/bin/score-stt-boundaries.py:68-76 | each count is the number of such entries of the alignment; exact recall, recall in any order and error rate times the reference tokens are the matches, the common tokens and the errors, and there are none without reference tokens |
| Alignment.ScoreRow | harness/bin/score-stt-boundaries.py:68-76 | counting the alignment's entries gives the scores of the value model |
| Alignment.ScoredRowsAreCounted | harness/bin/score-stt-boundaries.py:68-76 | whatever is scored, reference tokens are matched, substituted or deleted, and errors are the three kinds together |
| Alignment.TotalsAddUp | harness/bin/score-stt-boundaries.py:83-88 | in every aggregate reference tokens are matched, substituted or deleted, and errors add up |
| Alignment.SumAdds | harness/bin/score-stt-boundaries.py:86 | the totals of two lists of rows are the sums of their totals, field by field |
| Alignment.SumOfOne | harness/bin/score-stt-boundaries.py:85 | the totals of one row are its counts if it is scored speech, and nothing otherwise |
| Alignment.SumPermuted | harness/bin/score-stt-boundaries.py:83-88 | the order of the rows changes no total |
| Alignment.EmptyInsertionsAdds | harness/bin/score-stt-boundaries.py:92 | insertions of rows without reference tokens add up over lists of rows |
| Alignment.EmptyInsertionsOfOne | harness/bin/score-stt-boundaries.py:92 | one row adds its insertions exactly when it is scored without reference tokens |
| Alignment.AggregateMeans | harness/bin/score-stt-boundaries.py:88-92 | the rates times the total reference tokens are the total matches and errors, and there are none without reference tokens |
| Alignment.AggregateIsConsistent | harness/bin/score-stt-boundaries.py:83-94 | aggregate recall is a share, is there exactly when some row is scored speech, and with the error rate is at least 1 |
| OggPackets.Reader.NextPacket | harness/go-talk-rotator/main.go:1612-1689 | returns the next media packet of the stream and removes it from what is to come, or the failure that ends it; never the segment-length failure |
| OggPackets.Reader.TakePage | harness/go-talk-rotator/main.go:1620-1687 | one page read from the input joins the queue and the carry, or its failure leaves both |
| OggPackets.Reader.SplitBody | harness/go-talk-rotator/main.go:1648-1662 | splitting a page by its segment table completes the packets its segments end and never runs past the page |
| OggPackets.StreamPackets | harness/go-talk-rotator/main.go:1777-1785 | calls until one fails read, from any way of lacing and paging some packets, exactly the media ones in order, and fail with the end of the stream; never an empty packet or a header packet |
| OggPackets.PaginationIrrelevant | harness/go-talk-rotator/main.go:1612-1689 | however packets are laced and cut into pages, exactly the media packets come out in order, then the end with nothing carried over |
| OggPackets.MediaMeans | harness/go-talk-rotator/main.go:1678-1684 | the media packets are, in order, those that are not empty and start neither with "OpusHead" nor with "OpusTags" |
| OggPackets.CutPage | harness/go-talk-rotator/main.go:1621-1646 | a page cut off anywhere ends the stream, with the end of file exactly when the cut is in the fixed header or between two parts |
| OggPackets.ForeignPage | harness/go-talk-rotator/main.go:1627-1629 | what does not start with "OggS" is refused |
| OggPackets.TruncationKeepsOrder | harness/go-talk-rotator/main.go:1621-1646 | a stream cut off anywhere yields a prefix of the media packets of the whole one, for any lacing and paging |
| OggPackets.PagesReassemble | harness/go-talk-rotator/main.go:1648-1662 | page by page, and whatever comes after them, reading gives what all segments together give, from any carry |
| HelloSniffer.Sniffer.Feed | harness/bin/interrupt-signaling-once.py:20-66 | the loop over the buffer reports and leaves what the value model of one call says, and after a refusal what the model says is left |
| HelloSniffer.Sniffer.TakeFrame | harness/bin/interrupt-signaling-once.py:37-55 | takes a complete frame off the buffer, unmasked, or leaves it |
| HelloSniffer.ChunkingIrrelevantIff | harness/bin/interrupt-signaling-once.py:20-66 | every cutting gives the same hellos and state or the same refusal, exactly when the header ends within the limit, or it is an upgrade whose frames are refused |
| HelloSniffer.LateHeader | harness/bin/interrupt-signaling-once.py:24-28 | a stream with a header of 65538 bytes that one call accepts and a cutting of it does not |
| HelloSniffer.FrameRoundTrip | harness/bin/interrupt-signaling-once.py:37-54 | a frame encoded in any length form, masked bit by bit or not at all, scans back to its opcode and payload |
| HelloSniffer.ScanUnmasks | harness/bin/interrupt-signaling-once.py:37-54 | each bit of the payload of a masked frame is the exclusive or of that bit of the frame and of the mask's byte at its place modulo four; an unmasked one is as sent |
| HelloSniffer.XorBits | harness/bin/interrupt-signaling-once.py:54 | a bit of the exclusive or is one exactly when one of the two bits is |
| HelloSniffer.PartialFrame | harness/bin/interrupt-signaling-once.py:40-51 | a frame of which bytes are missing is left alone |
| HelloSniffer.UpgradeInEitherCase | harness/bin/interrupt-signaling-once.py:30 | a header upgrades exactly when it contains "upgrade: websocket" with each letter in either case |
| HelloSniffer.TerminatorIsBlankLine | harness/bin/interrupt-signaling-once.py:25 | the header ends where two line ends follow each other |
| HelloSniffer.OpaqueStream | harness/bin/interrupt-signaling-once.py:30-34 | a stream that does not upgrade reports nothing and keeps nothing, however it is cut |
| HelloSniffer.LargeFrameRefused | harness/bin/interrupt-signaling-once.py:45-46 | a frame over a million bytes is refused once its length is there |
| HelloSniffer.HelloReportedOnce | harness/bin/interrupt-signaling-once.py:20-66 | of encoded frames and part of one more, cut anywhere, the first hello is reported once and nothing else; without one the part waits; a text frame that does not decode before it refuses |
| Signaling.StepKeeps | harness/go-talk-rotator/main.go:364-504 | every step of every request, receiver and closer keeps the invariant of table, channels, deliveries and mutex |
| Signaling.EveryRunIsSafe | harness/go-talk-rotator/main.go:364-504 | in every interleaving no channel is sent to twice, closed twice or sent to when closed, no send blocks, and a returned message has the request's id |
| Signaling.NoRequestIsForgotten | harness/go-talk-rotator/main.go:392-440 | a waiting request is in the table, about to be answered, or has its response; once closed it can take one or is about to |
| Signaling.ReceivedIsReturned | harness/go-talk-rotator/main.go:434-438 | in every run a request that takes a message from its channel has returned that message in every later state |
| Signaling.EveryEndHasItsCause | harness/go-talk-rotator/main.go:392-440 | in every run a request fails only if it was cancelled, saw the client closed, could not be written, timed out, came too late or received the closing; and it returns only what it received |
| Signaling.NothingIsInvented | harness/go-talk-rotator/main.go:469-497 | in every run a returned message was read from the connection and bears the id of the request |
| Signaling.AnswerArrives | harness/go-talk-rotator/main.go:482-496 | for a waiting request in the table, taking, delivering and receiving its answer are possible and end in returning it |
| Signaling.RequestMoves | harness/go-talk-rotator/main.go:392-440 | a step ends a request with the message it receives or for a reason, or does not end it; an ended one stays as it is |
| Signaling.RequestsGoOn | harness/go-talk-rotator/main.go:392-440 | no request is stuck but for the mutex |
| Signaling.OthersGoOn | harness/go-talk-rotator/main.go:364-380 | no receiver and no closer is stuck but for the mutex |
| Signaling.StepsLead | harness/go-talk-rotator/main.go:400-433 | where each step of a request leads, and that failing to write and timing out take it out of the table |
| Signaling.TableChanges | harness/go-talk-rotator/main.go:400-433 | an entry leaves the table only with its answer, with its failure or time-out, or with closing, and gets there only by registering |
| Signaling.ChannelChanges | harness/go-talk-rotator/main.go:364-373 | a response gets into a channel only from the receiver of its message or from closing, and a channel is closed only by the receiver that answered or by closing the client |
| Signaling.ClosingIsAnnounced | harness/go-talk-rotator/main.go:376-378 | in every run requests have been told of a closed client, or are about to be |
| AudioRotation.PickAudible | harness/go-talk-rotator/main.go:2023-2041 | the active bot with the fewest turns to wait is the only audible one; in all-audible mode all active ones are and nothing rotates |
| AudioRotation.RotateAudio | harness/go-talk-rotator/main.go:2043-2096 | the rounds played form a rotation, and after each of them, of the active bots exactly the current one is audible while the others keep their flags; in all-audible mode all active ones are and nothing rotates; it ends when all are done or a wait is cancelled |
| AudioRotation.RotationIsFair | harness/go-talk-rotator/main.go:2023-2096 | a bot active in as many rounds in a row as there are bots is audible in one of them, and there alone among the active, whatever the others do |
| AudioRotation.IdleKeepsFlag | harness/go-talk-rotator/main.go:2067-2071 | a bot active in no round keeps its mute flag, in either mode |
| AudioRotation.RoundRobin | harness/go-talk-rotator/main.go:2034-2039 | with all bots active the turn moves on by one each round, so the bound is sharp |
| RtpSequence.Scan | cassini-go-recorder/cmd/rtplogscan/main.go:41-90 | total is distinct indices plus duplicates, lost is the span less the distinct ones, and late arrivals and jumps are counted |
| RtpSequence.AdvancesAreRecords | cassini-go-recorder/cmd/rtplogscan/main.go:62-88 | the jumps the scan lists are the packets more than one above every index before, and a late arrival is one that is neither such a new highest nor a duplicate |
| RtpSequence.LostAreMissing | cassini-go-recorder/cmd/rtplogscan/main.go:66-92 | lost is the missing ones of the span less those from before the first packet, so equal to the missing exactly when there are none of those |
| RtpSequence.EarlyPacketHidesLoss | cassini-go-recorder/cmd/rtplogscan/main.go:66-92 | three packets of which one hides that another is missing |
| RtpSequence.DifferencesAreTrue | cassini-go-recorder/cmd/rtplogrecover/main.go:57-69 | over any number of wraps the indices differ as the true ones exactly when every packet is less than half a cycle ahead of the highest before it and at most half behind |
| RtpSequence.SortIsStable | cassini-go-recorder/cmd/rtplogrecover/main.go:71 | the sort orders by index and keeps packets of one index in order of arrival |
| RtpSequence.Compact | cassini-go-recorder/cmd/rtplogrecover/main.go:73-81 | the compaction over the same array keeps the first of each index and never overwrites an unread entry |
| RtpSequence.Recover | cassini-go-recorder/cmd/rtplogrecover/main.go:40-81 | each index is written once, strictly increasing, as it first arrived; as many as the scan counts without duplicates |
| StorageCharts.StorageBars | cassini-app/src/operator/storageCharts.ts:56-70 | for valid requests the bars partition the days contiguously and each holds what the days of its dates hold; errors are exactly the stated ones |
| StorageCharts.FillBars | cassini-app/src/operator/storageCharts.ts:63-68 | each day of the range goes to the bar whose dates contain it and no other |
| StorageCharts.HeldAdds | cassini-app/src/operator/storageCharts.ts:63-68 | what a date range holds of two lists of days is what it holds of each |
| StorageCharts.HeldOfOne | cassini-app/src/operator/storageCharts.ts:63-68 | a day counts for a date range exactly when its date lies there |
| StorageCharts.BarsConserve | cassini-app/src/operator/storageCharts.ts:56-70 | over such bars bytes and files of the range are conserved |
| StorageCharts.DefaultIsLeast | cassini-app/src/operator/storageCharts.ts:45-49 | the default width gives at most sixty bars, no smaller candidate does, it is a preset whenever one is wide enough, and the chart accepts it exactly up to 599940 days |
| StorageCharts.DefaultInSteps | cassini-app/src/operator/storageCharts.ts:45-49 | the width by the number of days: 1, 7, 30, 60 or 90 up to 5400 days, then a sixtieth of them rounded up |
| StorageCharts.DefaultRefused | cassini-app/src/operator/storageCharts.ts:46-60 | for 599941 days the default width is one more than the chart takes |
| StorageCharts.DisplayCategories | cassini-app/src/operator/storageCharts.ts:17-31 | the loops over categories and days give the grouped categories of the value model, or the given ones when split |
| StorageCharts.GroupingConserves | cassini-app/src/operator/storageCharts.ts:17-31 | grouping conserves bytes, files and undated amounts overall, and bytes and files on every date |
| StorageCharts.GroupingMeans | cassini-app/src/operator/storageCharts.ts:17-31 | grouped, no failed attempt is shown; the recordings and current state come first, then one history with exactly the amounts and dates of the attempts, each date once and ascending, then all others, each as given and in order |

## Left out

- Parsing and JSON: `ParseBatch`, `ParseAnnotations`, `UserTitle` and the decoding of payloads; documents and operations start decoded, so members of another operation cannot occur.
- Error messages: a refusal is its exit code; the order of checks decides only which message is given.
- AnnotationEngine.Document.Clone: aliasing below the document is not modelled; colours, icons, positions and titles are values, so that a clone copies the boxes they are held in is not stated; that the given document is untouched is.
- The nil and empty lists that the JSON encoding tells apart are one empty sequence.
- AnnotationOps.MutateBatch: a failing random source for the namespace is an oracle answer; that minted namespaces are well formed is an assumption of `RecordingOk`.
- OggPackets.Reader.NextPacket: does not model packet durations or the granule position, which only feed media pacing; checksums and continuation flags are ignored as the source ignores them.
- Signaling.EveryRunIsSafe: ids are numbers and their decimal text is not modelled; reading from the network, event delivery and the dialling of the connection are left out, and the client is a state machine rather than a class because its methods interleave.
- AudioRotation.RotateAudio: sleeping, logging, failing mute calls and mute changes made outside the rotation are left out; what rounds see of the bots and whether the mute gate opens are inputs.
- RtpSequence.Scan: indices are unbounded, so the wrap of a 64-bit counter after 2^48 packets is not modelled; gap times and printing are left out.
- StorageCharts.GroupingMeans: dates are compared in byte order where the source calls `localeCompare`; the two agree on ISO dates, and only those occur.
- StorageCharts.StorageBars: calendar text and its conversion are a parameter, numbers are exact, and NaN is not a precision; colours and labels are left out.
- Scoring: tokenising, repetition counts, the hold-out partition, false speech tokens, the counts of fixtures and report fields that only copy input.
- HTTP, WebRTC, media, Docker, database and Nextcloud calls, and the user interface.
