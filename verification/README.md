# Agentic NLE: a verified model of the editing engine

This project models the deterministic core of the video editor and proves properties of it: exact time arithmetic, the
project model, sequence evaluation, block rendering and export, the command editor with its history, the native project
format, saving and crash recovery, the agent session, timeline gestures, frame indexes, the media cache and the
supervision of the playback worker. `dafny verify dfyconfig.toml` checks all of it.

How to read it:

- `Time.dfy` and `SourceTime.dfy` keep the 64-bit bounds explicit. A time is a reduced fraction; `Seconds()` is its exact
  real value, and everything above compares and adds through contracts that say "exact, or refused".
- An exception of the program is a `None`, a `Failure` or a `false`, and the contracts say what stays unchanged then.
- Code that updates objects is a class (`Renderer`, `AacWriter`, `Muxer`, `Editor`, `Transaction`, `Reader`, `Writer`,
  `DocumentFile`, `Session`, `MediaCache`, `Transport`, `Candidate`, `Registry`), and loops are loops. Each is proved
  against a value function or predicate, and the lemmas are about those.
- What an operation means is said apart from how it is computed: `SequencePlans.Reports` in terms of the plan's fields,
  `CommandEffects` and `ClipTables` in terms of the project before a command, `Formats` as the grammar of each version
  of the native format with the project that a text of it stands for. The methods check and compute step by step, with the
  source's literals, and are proved to agree with that.
- A `char` is one byte. A value of an enumeration outside its range cannot be written down here, so the checks that refuse
  one have nothing to refuse, except where the native format reads it from text.
- Each floating-point estimate of an index is an arbitrary starting integer in the stated range: the correction loops are
  what is proved.
- Decoders are a value (`Rendering.Footage`): an ordered list of sample blocks and a picture for each stream. Mixing is an
  ordered fold with an abstract `blend`, not IEEE arithmetic.

What the proofs found, besides what was expected:

- `Documents.TargetSparesTheBest`, `Documents.EqualRevisionsTie`: when both recovery slots hold checkpoints of one and the
  same revision, the next checkpoint replaces the very one that recovery would return, so a torn write loses it. That
  happens exactly when the revisions tie; a revision above every one written before never ties, and a failed or torn write
  may be retried at its own (`Documents.RunOffersLastWritten`).
- `AgentSessions.FullReserveShutsSavesOut`: the reserve that ordinary requests leave (2 MiB + 8192) covers a later save only
  while results stay within 2 MiB; a result that used all of the reserve would shut saves out.
- `Transports.Transport.Play`, `Transports.Transport.LostPlay`: pressing play between a cancellation and the end of the
  cancelled worker process is lost, although the transport then reports that it is playing.
- `FrameIndexing.ForwardThenBackward`, `FrameIndexing.NowhereToGoBack`: stepping forward and back returns to the clamped start
  of the frame exactly when the range starts before that frame ends; otherwise the step back finds nothing.
- `SplitPlayback.SplitCanOverflow`, `SplitPlayback.SplitIsInvisible`: a split can make instants behind it impossible to
  evaluate, because the offset into the right half needs a common rate that leaves 64 bits; then evaluation is refused
  where it was accepted before. `SplitPlayback.InstantFits` says which instants stay; where evaluation succeeds nothing
  differs.
- An unsaved document of an older format version that only just fits may not fit once rewritten as version 5; then a
  checkpoint is refused (`Documents.DocumentFile.Continuing`, `PersistenceProofs.Migration`).

## Model

| member | source | states |
|---|---|---|
| `Rendering.Renderer.Next` | src/decode/renderer.cpp:125-167 | one call returns exactly the next (at most 480) samples of the per-sample mix and the exact frames whose instants they cover, so blocks and boundary splits are unobservable; it fails only because of a sample or frame of its own chunk (a missing stream, a time that does not fit, a sample that is not finite) or a duration beyond the sample clock, and always when a stream is missing or a sample is not finite there; no decoder of a clip that keeps playing is repositioned, and each stands right behind the last sample |
| `Rendering.Renderer.FillAudio` | src/decode/renderer.cpp:137-154 | the block loop fills the buffer with the clamp-free per-sample mix, from any decoder positions the slots are ready at, and repositions no decoder whose clip is still playing; it fails only because of a sample of the buffer, and whenever a clip heard there has no stream |
| `Rendering.Renderer.FillStretch` | src/decode/renderer.cpp:141-153 | one evaluation makes progress (the boundary check cannot fire) and mixes every sample up to the boundary; every heard layer's decoder ends right behind the stretch; it fails only because of what is heard or computed at its first sample |
| `Rendering.Renderer.FillFrames` | src/decode/renderer.cpp:160-164 | emits every frame before the block end and the sequence end, once and in order, and stops at the first one after; it fails only because of one of these frames |
| `Rendering.Renderer.constructor` | src/decode/renderer.cpp:70-76 | the first sample is the ceiling of the start and the first frame the first grid point at or after it, or the estimate where that is later |
| `Rendering.CorrectedFrame` | src/decode/renderer.cpp:72-76 | the correction loop ends at the first frame at or after the start exactly when the estimate is off by less than a frame, and otherwise at the estimate |
| `Rendering.Open` | src/decode/renderer.cpp:22-77 | why rendering cannot begin, for exactly the first failing check: position, source instants, limits, missing sources, or a start beyond the sample clock; and the position it starts from |
| `Rendering.CheckLayers` | src/decode/renderer.cpp:39-63 | the loop over the playing layers: more than two of video or four of audio, or a source range beyond a day, are refused; otherwise exactly the assets shown or heard by some clip are required |
| `Rendering.MixBlock` | src/decode/renderer.cpp:149-152 | mixing the contributions of one evaluation gives the per-sample mix at every sample before the boundary; it moves exactly the slots of the layers heard, each to the source sample behind the block |
| `Rendering.MixItem` | src/decode/renderer.cpp:89-109 | a slot of the same clip is asked for exactly the source sample it stands at and does not seek; any other seeks once, to the start of the request; either ends at the source sample behind the request |
| `Rendering.RequestContinues` | src/decode/renderer.cpp:89-109 | a slot whose clip is the one heard already has its media and stream and stands at the requested source sample |
| `Rendering.StillNotSought` | src/decode/renderer.cpp:137-154 | a clip that plays on across stretches is never sought again |
| `Rendering.PartialMixIsRaw` | src/decode/renderer.cpp:140-154 | a contribution evaluated at the start of a stretch yields, at every sample before the boundary, what evaluating that very sample would yield |
| `Rendering.Poster` | src/decode/renderer.cpp:110-124 | the picture of an instant is that of the topmost shown clip at its exact source time, or black |
| `Rendering.FirstFrameIsFirst` | src/decode/renderer.cpp:78-80 | the frames before an instant are exactly those with smaller numbers |
| `Rendering.WhyUnmixed` | src/decode/renderer.cpp:89-91 | mixing fails only when a clip heard at that sample has no stream or a source instant that does not fit |
| `Rendering.FailingSample` | src/decode/renderer.cpp:137-154 | a plan with resolved streams and representable times fails at no sample |
| `Rendering.Clamped` | src/decode/renderer.cpp:155-159 | every sample is clamped, or the chunk is refused exactly when one of its samples is not finite |
| `Samples.Mix` | src/decode/decoder.cpp:403-428 | over any ordered blocks and any read position that has skipped nothing, the buffer gains exactly the stream's sample at each index, gaps and the end of the stream adding nothing |
| `Samples.Scaled` | src/decode/decoder.cpp:34-39 | exact floor or ceiling of time times rate, refused exactly when the product leaves 64 bits |
| `Samples.SampleFloor` | src/decode/decoder.cpp:49-49 | the exact floor at 48 kHz, or refused exactly when it does not fit |
| `Samples.SampleCeil` | src/decode/decoder.cpp:50-50 | the exact ceiling at 48 kHz, or refused exactly when it does not fit |
| `SequencePlans.Evaluate` | src/playback/sequence.cpp:27-63 | the binary-search evaluation equals a naive scan of every clip of every layer, and reports in terms of the plan alone: as picture the topmost clip over the position on an enabled video track, with a picture and its video not disabled, at full gain; as sounds, in order, exactly one clip for each enabled, unmuted track of nonzero gain that has one over the position with sound and its audio not disabled, at the gain of the track; each with its exact source instant and the index of the first stream of the kind or of the one named; the boundary is the least later edge of a playing layer, or the duration; it fails exactly outside the sequence or when an exact source instant overflows |
| `SequencePlans.PictureIsMeant` | src/playback/sequence.cpp:51-55 | the picture of the naive scan is the topmost clip that can be seen, by enabled flag, kinds, routing and instant; none exactly when there is no such clip |
| `SequencePlans.SoundsAreMeant` | src/playback/sequence.cpp:56-60 | the sounds of the naive scan are one for each layer with a clip that can be heard and no others, each layer once, at the gain of its track |
| `SequencePlans.AddLayer` | src/playback/sequence.cpp:33-61 | one layer extends the scan of the layers above it: its conditions and the source instant are computed step by step |
| `SequencePlans.UpperBound` | src/playback/sequence.cpp:37-39 | the number of clips that start at or before the position |
| `SequencePlans.UpperBoundFindsShown` | src/playback/sequence.cpp:42-46 | the clip before the upper bound, if it has not ended, is the only one that covers the position |
| `SequencePlans.LayerBoundary` | src/playback/sequence.cpp:40-47 | the covering clip and the least later edge of one layer |
| `SequencePlans.ConstantUntilBoundary` | src/playback/sequence.cpp:27-63 | up to the boundary every later instant selects the same clips, streams and gains, with source times advanced by exactly the elapsed time |
| `SequencePlans.NothingAtEnd` | src/playback/sequence.cpp:31-32 | nothing is shown or heard at the duration |
| `SequencePlans.SourceTimeAt` | src/playback/sequence.cpp:50-50 | the exact source instant of the covering clip, or refused |
| `PlanBuilder.MakeSequencePlan` | src/playback/sequence.cpp:5-26 | every valid project gives a valid plan of the found sequence, whose duration is the latest clip end |
| `PlanBuilder.BuildLayer` | src/playback/sequence.cpp:16-24 | one track becomes its layer; the duration reaches every clip end and is one of them |
| `PlanBuilder.ClipIdentitiesDistinct` | src/project/model.cpp:185-188 | in a valid project the clips of a track have distinct positive IDs |
| `LinearPlans.MakePlan` | src/playback/plan.cpp:35-67 | the linear plan lists the clips of the only populated track; it is refused exactly when the first populated track exceeds the preview limits, or else when there is a second one |
| `LinearPlans.BuildSegments` | src/playback/plan.cpp:50-64 | accepted exactly when every clip is within the preview limits |
| `LinearPlans.ValidatePreviewSource` | src/playback/plan.cpp:10-34 | which source can be previewed: the loop over streams finds misaligned legacy streams and second streams of a kind, and each refusal is the first failing check |
| `LinearPlans.TakeSample` | src/playback/plan.cpp:68-79 | the segment that covers the position with its exact source instant, and the next edge; refused exactly outside the plan or when that instant overflows |
| `LinearPlans.Milliseconds` | src/playback/plan.cpp:5-9 | whole milliseconds, rounded down |
| `LinearPlans.LinearAgrees` | src/playback/sequence.cpp:27-63 | on a single populated, enabled track evaluation agrees with the linear sample in boundary, and in clip and source wherever it contributes |
| `LinearPlans.PlansCorrespond` | src/playback/plan.cpp:41-66 | built from the same tracks, both plans list the same clips and last equally long |
| `Exporting.ExportSequence` | src/export/export.cpp:570-598 | a finished export holds the per-sample mix of [0, ceil(48000 D)) and every frame before D once, in order; discontinuity, excess-frame, mismatch and PCM errors are unreachable, and an exportable plan with its sources present is exported |
| `Exporting.ExportChunk` | src/export/export.cpp:573-594 | one turn of the loop keeps what has been written equal to what the plan defines up to there |
| `Exporting.FinishExport` | src/export/export.cpp:595-598 | flushing completes the audio, padded for AAC as announced |
| `Exporting.FrameCountIsExact` | src/export/export.cpp:85-96 | the rescaled frame total equals the number of frames that start before the end |
| `Exporting.CountFrames` | src/export/export.cpp:85-96 | an empty sequence is refused, then exactly the time bases beyond 32 bits; otherwise the total is the number of frames that start before the end |
| `Exporting.WritePictures` | src/export/export.cpp:586-591 | pictures take consecutive frame numbers and never exceed the total |
| `Exporting.Muxer.WriteAudio` | src/export/export.cpp:581-585 | whichever preset, the audio received so far grows by the chunk |
| `Exporting.PcmWriter.Write` | src/export/export.cpp:445-458 | the packet is written unless it is odd, empty or larger than the encoder frame, which shrinks to it |
| `AacChunking.AacWriter.Write` | src/export/export.cpp:459-479 | for any chunking the emitted frames and the rest de-interleave to what was received; less than a frame stays pending |
| `AacChunking.AacWriter.Finish` | src/export/export.cpp:480-498 | the last frame is filled with silence and nothing stays pending |
| `AacChunking.AacWriter.Emit` | src/export/export.cpp:465-477 | frames have the fixed size and timestamps that are consecutive multiples of it |
| `AacChunking.PaddingIsLeast` | src/export/export.cpp:407-412 | the padding computed up front is what the last frame needs |
| `Editing.Editor.Publish` | src/commands/editor.cpp:394-424 | either nothing changes, for exactly the first failing check (full log, invalid result, history budget), or the candidate goes live under one new edit record with its measured history entry, redo is discarded, and history keeps as much as the limits allow |
| `Editing.Editor.Retain` | src/commands/editor.cpp:402-418 | the new history entry is kept, the oldest ones go, and no more of them than the limits demand |
| `Editing.Editor.Restore` | src/commands/editor.cpp:425-442 | undo and redo move the cursor along an unchanged line of contents, never lower the ID watermark, and are refused on a non-empty stack only for a bad context or a full log |
| `Editing.Editor.Execute` | src/commands/editor.cpp:367-376 | a command is applied to the live state and published at once, or refused for exactly the first failing check with nothing changed |
| `Editing.Editor.Begin` | src/commands/editor.cpp:362-366 | a transaction starts from a private copy of the live state |
| `Editing.RefuseContext` | src/commands/editor.cpp:356-361 | an edit is refused as invalid exactly when actor or caption is not a text, and as a conflict exactly when another revision than the live one was expected |
| `Editing.AddRecord` | src/commands/editor.cpp:284-293 | one record with the next revision as its number, the actor, caption, kind, target and actions given, is appended and nothing else changes; a full log is refused before, an invalid candidate after |
| `Editing.Editor.Commit` | src/commands/editor.cpp:377-393 | accepted only while the live state is the one the transaction began from, and refused for exactly the first failing check; publishes exactly the previewed content with 1 to 1024 actions; the transaction is closed either way |
| `Editing.Editor.ChangesSince` | src/commands/editor.cpp:451-457 | the records after a revision, in order; a future revision is refused |
| `Editing.Editor.constructor` | src/commands/editor.cpp:327-330 | a valid project starts with empty history |
| `Editing.Transaction.Stage` | src/commands/editor.cpp:305-323 | a staged command advances the private copy; it is refused exactly when the transaction is closed, the limit is reached or the command does not apply, and the latter two close the whole transaction |
| `Editing.CommitAfterRollback` | src/commands/editor.cpp:378-386 | after a roll-back no command can be staged, and a commit is refused and leaves the editor as it was |
| `Editing.RevisionIdentifiesState` | src/commands/editor.cpp:382-383 | over a whole run equal revisions mean equal states, so a commit cannot be fooled by a state that changed and changed back |
| `Editing.LinearExtends` | src/commands/editor.cpp:284-293 | every new state appends one record and one revision, and never lowers the watermark |
| `Editing.RestoredIsValid` | src/commands/editor.cpp:432-437 | a restored content with the live watermark and log always validates |
| `Editing.CommitIsValid` | src/commands/editor.cpp:400-401 | a validated candidate with its record validates again |
| `Editing.UndoThenRedo` | src/commands/editor.cpp:443-450 | n undos and n redos restore content, watermark and both stacks entry by entry, and cost 2n revisions |
| `Editing.IssueKeepsOrder` | src/commands/editor.cpp:13-17 | the IDs of one more edit follow all those issued before it in strictly increasing order |
| `History.EditHolds` | src/commands/editor.cpp:402-423 | an edit cuts the line of contents after the cursor and extends it |
| `History.UndoHolds` | src/commands/editor.cpp:427-441 | an undo leaves the line of contents as it is |
| `History.RedoHolds` | src/commands/editor.cpp:427-441 | a redo leaves the line of contents as it is |
| `History.EditAgrees` | src/commands/editor.cpp:284-293 | replaying the log still gives the redo stack exactly and an undo stack whose suffix is the retained one, after an edit with any eviction |
| `History.UndoAgrees` | src/commands/editor.cpp:436-440 | the target of an undo record is on top of the replayed undo stack |
| `History.RedoAgrees` | src/commands/editor.cpp:436-440 | the target of a redo record is on top of the replayed redo stack |
| `History.RaisedWatermark` | src/commands/editor.cpp:433-435 | raising the watermark and replacing the log keep the content valid |
| `History.Evict` | src/commands/editor.cpp:411-417 | the loop drops the oldest entries and stops as soon as both limits hold |
| `History.TotalBytes` | src/commands/editor.cpp:411-413 | the sum of the entries |
| `Commands.ApplyKeeps` | src/commands/editor.cpp:51-207 | an accepted command leaves a valid project with the same identity, name and log, and takes exactly the next ID if it creates something |
| `Acceptances.InsertAccepted` | src/project/model.cpp:228-246 | an insertion is accepted exactly when the track exists, an ID is left, and the new clip is valid on that kind of track, within its asset, and overlaps no other clip |
| `Acceptances.MoveAccepted` | src/project/model.cpp:228-246 | a move is accepted exactly when clip and destination exist and the moved clip is valid there and overlaps no other clip, also on its own track |
| `Acceptances.TrimAccepted` | src/project/model.cpp:228-246 | a trim is accepted exactly when the clip exists and, so trimmed, is valid and overlaps no other clip |
| `Acceptances.SplitAccepted` | src/commands/editor.cpp:102-118 | a split is accepted exactly when the clip exists, an ID is left, the position lies inside with an exact offset, and the ends of both halves fit; never refused for an overlap or a range |
| `Acceptances.RoutingAccepted` | src/project/model.cpp:228-246 | a routing is accepted exactly when the clip exists and with it is valid where it is |
| `Acceptances.DeletionAccepted` | src/commands/editor.cpp:119-122 | a deletion is accepted exactly when the clip exists |
| `Acceptances.SortedTrackIsValid` | src/project/model.cpp:228-246 | a sorted track is valid exactly when its clips are valid and no two overlap, in whatever order they were |
| `Acceptances.OneTrackChanged` | src/project/model.cpp:154-249 | a valid project stays valid with other clips on one track exactly when those are valid and do not overlap |
| `Candidates.Candidate.Apply` | src/commands/editor.cpp:51-207 | editing the private copy in place, sorting it and validating it computes what the command means (`ClipTables`, `CommandEffects`, `Orderings`), and fails exactly when the command is refused |
| `Candidates.Candidate.Edit` | src/commands/editor.cpp:53-204 | every command edits the copy in place as its value function specifies, or fails exactly when that has no result |
| `Candidates.Candidate.MoveClip` | src/commands/editor.cpp:89-96 | erasing the clip and appending it to its destination, also on the same track |
| `Candidates.Candidate.SplitClip` | src/commands/editor.cpp:102-118 | the left half stays in place and the right one is appended under a new ID |
| `Candidates.Candidate.ReplaceMediaSource` | src/commands/editor.cpp:150-179 | finding the asset, then its original location, which is overwritten or appended, and the checks in between, as the command means |
| `Candidates.Candidate.RelinkMedia` | src/commands/editor.cpp:180-202 | finding the asset, then the location of the role, which is erased, overwritten or appended |
| `Orderings.ReorderMeans` | src/commands/editor.cpp:135-149 | the moved track is at the index asked for, the tracks of its sequence are permuted, the others keep their relative order, and every other sequence stays |
| `Orderings.ReorderUndone` | src/commands/editor.cpp:135-149 | moving the track back to where it stood restores the project |
| `Orderings.OthersKeepOrder` | src/commands/editor.cpp:146-148 | two other tracks keep their relative order, and no place is taken twice |
| `Candidates.Candidate.Sort` | src/commands/editor.cpp:39-43 | the nested loops sort every track of every sequence as `SortClips` does and change nothing else |
| `Orderings.SortOrders` | src/commands/editor.cpp:39-43 | sorting any list orders it by position, then by ID, and keeps each clip exactly once |
| `Orderings.SortIsUnique` | src/commands/editor.cpp:39-43 | clips with distinct IDs have one order only, so every correct sort gives the same list |
| `Candidates.PlaceOfTrack` | src/commands/editor.cpp:24-30 | the nested loops find the first track with the ID |
| `Candidates.PlaceOfClip` | src/commands/editor.cpp:31-38 | the nested loops find the first clip with the ID |
| `ClipTables.ClipCommandsMean` | src/commands/editor.cpp:68-122 | each command on clips changes the flat table of (track, clip) cards exactly as it says; tracks, sequences and media stay as they were |
| `ClipTables.OtherCommandsKeepClips` | src/commands/editor.cpp:55-203 | every other command leaves every clip on its track, and deleting a track takes exactly its clips along |
| `ClipTables.SortKeepsTable` | src/commands/editor.cpp:39-43 | restoring timeline order moves no clip and changes none |
| `ClipTables.MoveMeans` | src/commands/editor.cpp:89-96 | moving takes the clip off its track and puts it on the other with only its position changed, also when both are the same track |
| `ClipTables.DeleteTrackMeans` | src/commands/editor.cpp:123-134 | deleting a track removes the cards that name it |
| `ClipTables.RelinkMeans` | src/commands/editor.cpp:180-202 | relinking sets or removes the location in its role, keeps the others, and drops the probe data of a changed original |
| `CommandEffects.ReplaceMediaSourceMeans` | src/commands/editor.cpp:150-179 | a replacement is accepted exactly when the asset exists, has the kind of the valid new metadata, does not lose a shared clock, and all its clips keep their streams and fit in the new duration; then Original is exactly the new URI and other roles stay, identity, name and kind stay, the metadata is the given one under the old time convention, and every other asset and every sequence is unchanged |
| `CommandEffects.RelinkMediaMeans` | src/commands/editor.cpp:180-202 | a relink is accepted exactly when the asset exists, the URI is a text and, for an original, no clip of it needs probed streams; then only that location changes, and the probe data goes with a changed original |
| `CommandEffects.AssetReplaced` | src/project/model.cpp:189-246 | another asset under the same ID leaves the content valid exactly when it is valid and every clip of it keeps its streams and its range |
| `CommandEffects.RegisterMediaMeans` | src/commands/editor.cpp:78-82 | an asset is registered exactly when an ID is left and it is valid; it is the last one, as given, and nothing else changes |
| `CommandEffects.CreateSequenceMeans` | src/commands/editor.cpp:55-59 | a sequence is created exactly when an ID is left, its name is a text and its frames last; it is the last one, empty, at 1920x1080 with stereo sound at 48 kHz, and nothing else changes |
| `CommandEffects.CreateTrackMeans` | src/commands/editor.cpp:72-77 | a track is created exactly when the sequence exists, an ID is left and its name is a text; it is the last of its sequence, empty, enabled, unmuted, at gain 1000, and nothing else changes |
| `CommandEffects.SetSequenceOutputMeans` | src/commands/editor.cpp:60-64 | an output is set exactly when the sequence exists, frames last, both sides are even and within 2 to 3840 by 2 to 2160, and sound is stereo at 48 kHz; frame duration and output of that sequence are the only things that change |
| `CommandEffects.SetTrackPlaybackMeans` | src/commands/editor.cpp:65-67 | playback is set exactly when the track exists and the gain is at most 4000; nothing else changes |
| `CommandEffects.DeleteTrackMeans` | src/commands/editor.cpp:123-134 | a track is deleted exactly when it exists: its sequence lists the others in order, and nothing else changes |
| `CommandEffects.ReorderAccepted` | src/commands/editor.cpp:135-143 | a track is reordered exactly when the sequence exists, has the track and has that many tracks |
| `SplitPlayback.SplitIsInvisible` | src/playback/sequence.cpp:27-63 | where the plans before and after a split can both be evaluated, they show and sound the same media, source, stream and gain, and only the split is a new boundary; outside the right half evaluation fails exactly as before; inside it fails exactly when another layer overflows or, on a playing track, the offset into the half or the source instant leaves 64 bits |
| `SplitPlayback.SplitCanOverflow` | src/playback/sequence.cpp:50-50 | a clip of one second that showed the instant 1/2 no longer does after a split at (2^62-1)/(2^63-1): its right half covers the instant but cannot compute its source |
| `SplitPlayback.RightHalfEvaluates` | src/core/time.cpp:52-67 | the right half has a source instant exactly when both common rates and both scaled values fit 64 bits |
| `SplitPlayback.SplitResult` | src/commands/editor.cpp:102-118 | the accepted split replaces the clip by its halves in place, on a track that is already in order |
| `SplitPlayback.SplitPlaysSame` | src/playback/sequence.cpp:33-61 | plans that differ by such halves are read the same by a naive scan over exact instants |
| `SplitPlayback.SortAppended` | src/commands/editor.cpp:39-43 | a clip appended out of place is sorted to where its position belongs |
| `PersistenceProofs.RoundTrip` | src/project/persistence.cpp:90-178 | the writer accepts exactly the valid projects within 16 MiB and 100000 records, and reading the text gives the project back |
| `PersistenceProofs.Migration` | src/project/persistence.cpp:180-357 | an accepted document of versions 1 to 5 is valid, and rewritten as version 5 within the size limit reads back as the same project |
| `PersistenceProofs.VersionAccepted` | src/project/persistence.cpp:180-360 | the reading law of every version, against a grammar written apart from reader and writer (`Formats`): a text that spells what a version writes for a project, with any blanks between tokens, is accepted exactly when the version is 1 to 5, text and records are within their limits and what that version holds is valid; and as exactly that: revision 0 and no log below 2, no probe data below 3, the legacy clock and no estimates below 4, and below 5 automatic routing, enabled unmuted tracks at gain 1000 and 1920x1080 with stereo sound at 48 kHz |
| `PersistenceProofs.VersionReads` | src/project/persistence.cpp:183-354 | the same for the parser alone: such a text is read exactly within the record budget |
| `Formats.VersionFive` | src/project/persistence.cpp:90-174 | what the writer produces is the grammar of version 5 |
| `PersistenceProofs.ProjectReads` | src/project/persistence.cpp:180-357 | reading back a written project succeeds exactly within the record budget |
| `PersistenceProofs.ProjectUses` | src/project/persistence.cpp:41-47 | whatever the version, an accepted document announced exactly the records it holds |
| `PersistenceProofs.TextIdentifiesProject` | src/project/persistence.cpp:90-178 | different projects are written as different bytes |
| `PersistenceProofs.AssetReads` | src/project/persistence.cpp:195-267 | a media asset with its locations and probe data reads back in every version, as what that version holds of it, exactly within the budget |
| `PersistenceProofs.SequenceReads` | src/project/persistence.cpp:269-319 | a sequence with its tracks, clips and routings reads back in every version, as what that version holds of it, exactly within the budget |
| `PersistenceProofs.OperationReads` | src/project/persistence.cpp:326-351 | an audit record with its actions reads back |
| `Lexing.UnquotedEscaped` | src/project/persistence.cpp:48-56 | quoting and unquoting restore any text, quotes and backslashes included |
| `Lexing.DecimalReads` | src/project/persistence.cpp:30-40 | a written integer is read back within its type's range |
| `ProjectFiles.ReadProject` | src/project/persistence.cpp:180-357 | the reader, field by field over one stream, computes the reading function, so it obeys the reading law of every version |
| `ProjectFiles.WriteProjectText` | src/project/persistence.cpp:90-178 | the writer's loops produce the document, which is read back before it is handed out |
| `ProjectFiles.Reader.Project` | src/project/persistence.cpp:183-354 | one pass over the stream, failing exactly where the specification does |
| `ProjectFiles.Reader.Count` | src/project/persistence.cpp:41-47 | announced records are paid for first |
| `ProjectFiles.Writer.Project` | src/project/persistence.cpp:94-171 | what is written and what is left to write always make up the whole document |
| `Documents.RunOffersLastWritten` | src/project/document.cpp:215-254 | over any run of checkpoints, each above the revisions written before it, with failed or torn writes anywhere and retries of those, recovery returns the last project that was written |
| `Documents.TargetSparesTheBest` | src/project/document.cpp:234-237 | a checkpoint targets the slot recovery would return exactly when both slots tie |
| `Documents.NewCheckpointWins` | src/project/document.cpp:185-198 | a written checkpoint is what recovery returns exactly when the kept slot does not outrank it |
| `Documents.TornWriteKeepsTheOffer` | src/project/document.cpp:234-253 | a torn write leaves recovery as it was exactly when the slots did not tie with different projects |
| `Documents.EqualRevisionsTie` | src/project/document.cpp:234-237 | two checkpoints of one revision tie, and tearing the next write loses the first |
| `Documents.CheckpointReadsBack` | src/project/document.cpp:156-184 | a written checkpoint is read back and offered, refused or ignored, exactly as identity, revision and content of the project compare with the saved one |
| `Documents.EnvelopeOpens` | src/project/document.cpp:161-173 | header and sizes of an envelope are parsed back from its bytes |
| `Documents.WordExtracted` | src/project/document.cpp:164-169 | extracting a word from a header skips blanks and takes all up to the next one; it fails exactly on blanks alone |
| `Documents.NumberExtracted` | src/project/document.cpp:166-168 | extracting a number skips blanks and takes a sign and all digits; it fails exactly without digits or beyond the type, and a negative one is taken modulo the type |
| `Documents.OfferedUnderOneText` | src/project/document.cpp:172-174 | a checkpoint is offered only while the saved bytes are the ones it embeds |
| `Documents.NothingOldIsOffered` | src/project/document.cpp:140-147 | once other bytes are saved no earlier checkpoint is offered, even if none could be removed |
| `Documents.DocumentFile.Checkpoint` | src/project/document.cpp:215-254 | when a checkpoint succeeds and why it fails, in the order of the checks; what it writes, and that a newer one is then recovered |
| `Documents.CheckpointNewer` | src/project/document.cpp:178-254 | over two calls on a saved document: a writable project of the same identity and a higher revision is checkpointed whenever the choice was made, the file is untouched and the slot can be replaced, and whoever recovers next is offered it if it is above both slots; another identity or a lower revision is refused, and never offered |
| `Documents.OfferedContinues` | src/project/document.cpp:176-182 | over a saved project only another project of the same identity and of no earlier revision is ever offered |
| `Documents.ReadSlot` | src/project/document.cpp:156-184 | reading a slot check by check, from the envelope to the comparison with the saved project |
| `Documents.DocumentFile.Save` | src/project/document.cpp:130-148 | when a save succeeds and why it fails, in the order of the checks; it changes everything or nothing; recovery files are removed in order up to the first that cannot be, and a checkpoint offered before is still offered exactly when its file stayed and the saved bytes did not change |
| `Documents.DocumentFile.Recovery` | src/project/document.cpp:185-198 | the loop over both slots finds the highest revision, the first on a tie, and the warning |
| `Documents.DocumentFile.DiscardRecovery` | src/project/document.cpp:255-267 | the files are removed in order up to the first that cannot be; it succeeds exactly when both are gone |
| `Documents.DocumentFile.Recover` | src/project/document.cpp:199-206 | recovery is handed out and accepted exactly when there is one |
| `Documents.OutsideChangeIsKept` | src/project/document.cpp:117-133 | once another program has changed the project file neither a save nor a checkpoint succeeds, and that file stays as it is |
| `Documents.DocumentFile.RequireRecoveryChoice` | src/project/document.cpp:207-214 | writing is refused while unanswered recovery files exist |
| `Documents.SaveThenLoad` | src/project/document.cpp:112-148 | what was saved is what is loaded, also by whoever opens the file next; after a failed save what was loaded before is loaded again |
| `Documents.RecoverAfterCrash` | src/project/document.cpp:199-254 | a checkpoint above both slots is what whoever opens the document after a crash is offered |
| `Documents.Open` | src/project/document.cpp:39-86 | which files can be opened, and as what |
| `AgentSessions.Session.Call` | src/mcp/session.cpp:565-660 | time passes first; a request that reads, and a changing one exactly when it is fresh, does exactly what its tool does, and the latter runs at most once under its key and is recorded; a repeated one gets the recorded reply; everything else is refused without a change for exactly the first failing check; after expiry nothing runs |
| `AgentSessions.Session.Execute` | src/mcp/session.cpp:647-652 | a fresh request does exactly what its tool does and is recorded with its reply |
| `AgentSessions.Session.Refusal` | src/mcp/session.cpp:620-646 | why a changing request is not run: each code exactly when its check is the first to fail |
| `AgentSessions.Session.Remember` | src/mcp/session.cpp:647-651 | records never overwrite each other, say which request was a save, and their bytes are summed exactly |
| `AgentSessions.Session.Run` | src/mcp/session.cpp:565-587 | the tool asked for does exactly its part; after every published change the recovery checkpoint is attempted, and without a pending error the live state is saved, checkpointed or as at the start |
| `AgentSessions.Session.RunTool` | src/mcp/session.cpp:280-564 | for each tool when it succeeds, which code refuses it otherwise, what it answers and the whole new state |
| `AgentSessions.BudgetIsKept` | src/mcp/session.cpp:641-646 | while results stay within their reserves the recorded bytes stay within the budget, and only a save takes the last place |
| `AgentSessions.SaveStaysPossible` | src/mcp/session.cpp:641-646 | directly after an ordinary request a fresh save is admitted exactly when fingerprint and reserve still fit; results of at most 2 MiB leave room for a fingerprint of 4096 bytes |
| `AgentSessions.FullReserveShutsSavesOut` | src/mcp/session.cpp:641-646 | a result beyond 2 MiB that uses the whole reserve can shut every save out |
| `AgentSessions.Session.SaveStaysFresh` | src/mcp/session.cpp:636-646 | while the last recorded request is an ordinary one with a reply of at most 2 MiB, a save under a new key with a fingerprint of at most 4096 bytes is fresh |
| `AgentSessions.OrdinaryThenSave` | src/mcp/session.cpp:636-652 | over two calls: after any ordinary request with a reply of at most 2 MiB such a save runs, and saves exactly when it is allowed, expects the live revision and the file can be written |
| `AgentSessions.Session.MemoBytesKept` | src/mcp/session.cpp:636-652 | while every recorded reply stays within its reserve, the session's byte counter stays within the budget |
| `AgentSessions.AnswerAll` | src/mcp/session.cpp:565-660 | over any run of calls whose replies stay within their reserves the recorded bytes stay within the budget, and what ran did so under keys of their own |
| `AgentSessions.SentTwice` | src/mcp/session.cpp:628-637 | a request sent twice runs once and gets the same reply twice |
| `AgentSessions.PreviewThenCommit` | src/mcp/session.cpp:474-538 | over two calls: an accepted preview is published by its commit exactly while it has not expired and the revision is its own, and is closed then |
| `AgentSessions.Session.Preview` | src/mcp/session.cpp:474-516 | a preview becomes a numbered proposal within the count, size and response limits, or nothing |
| `AgentSessions.Session.CommitProposal` | src/mcp/session.cpp:517-538 | a proposal is closed by its commit whatever comes of it, and publishes only on its own base revision |
| `AgentSessions.Session.RollBackProposal` | src/mcp/session.cpp:517-534 | a roll-back closes the proposal without a change |
| `AgentSessions.Session.ExpireProposals` | src/mcp/session.cpp:114-122 | exactly the expired proposals go, and the byte account follows |
| `AgentSessions.Session.ExpireProbes` | src/mcp/session.cpp:123-151 | finished workers are asked, and overdue jobs go stale and lose their result |
| `AgentSessions.Session.StartProbe` | src/mcp/session.cpp:315-362 | when a probe job starts; at most 64 records and 2 pending workers |
| `AgentSessions.Session.CommitMedia` | src/mcp/session.cpp:421-473 | a ready job is committed at most once, on its own base revision and unchanged file; an outdated one goes stale, a refused one stays |
| `AgentSessions.Session.CancelProbe` | src/mcp/session.cpp:407-420 | a running or ready job is cancelled and loses its result |
| `AgentSessions.Session.ProbeStatusOf` | src/mcp/session.cpp:363-406 | the reported state is the job's: ready once its worker has ended with success, failed once it has ended without, stale once expired (`AgedJobMeans`); a result is there exactly when it is ready |
| `AgentSessions.Session.AgedJobMeans` | src/mcp/session.cpp:123-151 | what has become of a job when a call comes in, case by case: failed, stale, ready or as it was; and that its base, target and expiry stay |
| `AgentSessions.StartThenStatus` | src/mcp/session.cpp:123-139 | over calls: after a started probe whose worker ends, a status call answers ready exactly when it ended with success and the job has not expired, and failed when it ended without |
| `AgentSessions.StartThenCommit` | src/mcp/session.cpp:421-473 | over calls: a commit of a started probe publishes exactly when its worker ended with success, the job has not expired, editing is allowed, the live revision is the one it was started on, the file is unchanged and the edit is accepted within the response limit |
| `AgentSessions.Session.CommittedSucceeded` | src/mcp/session.cpp:123-139 | over any run of calls: whatever was ever committed came from a worker that ended with success |
| `AgentSessions.GivenUpStays` | src/mcp/session.cpp:127-137 | a job that was cancelled or went stale stays so and has no result, whatever its worker returns |
| `AgentSessions.PendingIsCount` | src/mcp/session.cpp:324-328 | the pending workers are the jobs whose worker is still at work, counted |
| `AgentSessions.Session.StepHistory` | src/mcp/session.cpp:539-548 | undo and redo run on the expected revision only |
| `AgentSessions.Session.Save` | src/mcp/session.cpp:549-562 | a save records its revision and clears the recovery error, or changes nothing |
| `AgentSessions.Session.StopEverything` | src/mcp/session.cpp:603-615 | an expired session leaves no job running or holding a result |
| `AgentSessions.JobCommitted` | src/mcp/session.cpp:466-468 | only a job with a result is committed, and none twice |
| `AgentSessions.PagesCoverTheLog` | src/mcp/session.cpp:291-314 | following the pages yields every later change once, in order, whatever the page size |
| `Timeline.NearestSnap` | src/commands/timeline.cpp:7-41 | the result is a nearest point, within tolerance, of the playhead, the edges and the infinite grid, ties going to the earlier class, or none is in tolerance; refused for exactly the first failing check, in their order |
| `Timeline.NearestSnaps` | src/commands/timeline.cpp:16-40 | the first of the nearest considered points is a nearest of all snap points, the infinite grid included |
| `Timeline.EstimateInRange` | src/commands/timeline.cpp:27-31 | an estimate at most one above the last grid point is never refused |
| `Timeline.GridIndex` | src/commands/timeline.cpp:32-37 | from any estimate in range the search ends at the last grid point not after the position |
| `Timeline.FiniteCandidatesSuffice` | src/commands/timeline.cpp:24-39 | the two neighbouring grid points stand for the infinite grid |
| `Timeline.NearestGridPoint` | src/commands/timeline.cpp:38-39 | every other grid point is at least as far away |
| `Timeline.Consider` | src/commands/timeline.cpp:16-23 | one candidate keeps the first nearest point seen so far |
| `Timeline.SnapTime` | src/commands/timeline.cpp:43-46 | the nearest snap point, or the position itself when none is in reach; refused exactly when snapping is |
| `Timeline.SnapMove` | src/commands/timeline.cpp:72-84 | a move lands at most as far away as any start or end in reach would be; a start wins a tie, and the target is kept only when neither is in reach; refused for exactly the first failing check |
| `Timeline.MoveIsSnapped` | src/commands/timeline.cpp:75-84 | the program's choice is such a nearest place although it considers one end point only: when that leaves no room for the clip, the start is nearer to zero |
| `Timeline.TimelineDrag` | src/commands/timeline.cpp:47-108 | a drag becomes one move or trim of the dragged clip, snapped against the edges of all others; it is refused for exactly the first failing check, in their order |
| `Timeline.RefusalMeans` | src/commands/timeline.cpp:69-72 | in a valid project a drag has no clip or no destination exactly when no clip or no track has the ID, a trim is elsewhere exactly when it leaves its track, and an unsnapped move is refused for nothing else |
| `Timeline.Collect` | src/commands/timeline.cpp:54-68 | the nested loops find the dragged clip, its track, the destination and the edges of all other clips, and fail exactly when one of those ends does not fit |
| `Timeline.EdgesAreOthers` | src/commands/timeline.cpp:58-67 | the collected edges are exactly the starts and ends of the other clips |
| `Timeline.DraggedIs` | src/commands/timeline.cpp:58-63 | the dragged clip is found exactly when some track has it, and on that track |
| `Timeline.RightTrimKeepsContent` | src/commands/timeline.cpp:91-95 | an accepted right trim shows the same source at every instant and ends at the target |
| `Timeline.LeftTrimKeepsContent` | src/commands/timeline.cpp:96-107 | an accepted left trim shows the same source at every instant and keeps timeline end and source end |
| `Timeline.RightTrimRefused` | src/commands/timeline.cpp:91-95 | a right trim is refused exactly when nothing would be left or its duration does not fit |
| `Timeline.LeftTrimRefused` | src/commands/timeline.cpp:96-106 | which of three reasons refuses a left trim: nothing would be left; the source shown at the target lies before the source's beginning; a time it computes does not fit |
| `Timeline.Step` | src/desktop/sequence_transport.cpp:135-153 | stepping goes to the next grid point, or the last one before, clamped to the sequence |
| `Timeline.StepsCancel` | src/desktop/sequence_transport.cpp:135-153 | from an unclamped grid point a step and its opposite cancel |
| `FrameIndexing.BuildIndex` | src/media/frame_index.cpp:64-118 | an index is built exactly from readable, strictly increasing records with a final duration; its frames are contiguous |
| `FrameIndexing.AddFrame` | src/media/frame_index.cpp:99-113 | which record may follow, and that it closes the frame before it |
| `FrameIndexing.At` | src/media/frame_index.cpp:6-16 | the unique frame that holds the time, if any |
| `FrameIndexing.UpperBound` | src/media/frame_index.cpp:7-9 | the number of frames that start at or before the time |
| `FrameIndexing.LowerBound` | src/media/frame_index.cpp:28-32 | the number of frames that start before the time |
| `FrameIndexing.Step` | src/media/frame_index.cpp:17-49 | the next or previous frame start inside the range, clamped to its start |
| `FrameIndexing.ForwardThenBackward` | src/media/frame_index.cpp:24-47 | forward and back returns the clamped start of the frame, exactly when the range starts before that frame ends |
| `FrameIndexing.NowhereToGoBack` | src/media/frame_index.cpp:24-47 | from before the range a step forward and one back can end nowhere: two frames of one second, the range of the second |
| `FrameIndexing.StepThrough` | src/media/frame_index.cpp:24-34 | repeated forward steps from anywhere visit every later frame start before the range's end once, in order, with those before the range replaced by its start; refused exactly when there is a later start and the range's end does not fit |
| `MediaCaching.MediaCache.Retain` | src/desktop/media_cache.cpp:154-172 | a result replaces its predecessor, and only older entries are evicted, no more than the limits demand |
| `MediaCaching.MediaCache.MakeRoom` | src/desktop/media_cache.cpp:162-169 | eviction takes the least recently used entries until both limits allow the newcomer |
| `MediaCaching.MediaCache.Request` | src/desktop/media_cache.cpp:136-153 | what is found is returned and becomes the most recent; an absent or stale entry is queued once while there is room |
| `MediaCaching.MediaCache.Start` | src/desktop/media_cache.cpp:173-198 | every idle job takes one request; requests for known assets stay pending |
| `MediaCaching.MediaCache.StartOne` | src/desktop/media_cache.cpp:177-197 | the oldest request runs, or is dropped when its asset is unknown |
| `MediaCaching.MediaCache.Finished` | src/desktop/media_cache.cpp:104-113 | an old-generation result never enters; a current one leaves the pending set and is retained |
| `MediaCaching.MediaCache.Synchronize` | src/desktop/media_cache.cpp:121-135 | another project or media list empties the cache, stops the jobs and starts a new generation |
| `MediaCaching.Oldest` | src/desktop/media_cache.cpp:163-166 | the victim is a least recently used entry |
| `MediaCaching.PendingBound` | src/desktop/media_cache.cpp:147-150 | with pending keys being the queued and the running ones, each once, there are at most the queue limit plus two |
| `MediaCaching.SumWithout` | src/desktop/media_cache.cpp:167-168 | taking an entry away lowers the sum of all entries by exactly its bytes, so the running total stays their sum |
| `Transports.Transport.Seek` | src/desktop/sequence_transport.cpp:102-111 | a seek outside is refused; otherwise the old worker is given up and the next one begins at the latest position |
| `Transports.Transport.Start` | src/desktop/sequence_transport.cpp:159-210 | a worker starts only when none exists, and not at the end of the sequence |
| `Transports.Transport.Play` | src/desktop/sequence_transport.cpp:112-127 | play takes effect exactly when no given-up worker is still ending without a pending seek; it starts at the position, or at zero from the end, and otherwise changes nothing but that it plays |
| `Transports.Transport.LostPlay` | src/desktop/sequence_transport.cpp:112-127 | play between a cancellation and the end of the worker is lost |
| `Transports.Transport.Pause` | src/desktop/sequence_transport.cpp:128-134 | pausing keeps the position and gives the worker up |
| `Transports.Transport.Finishes` | src/desktop/sequence_transport.cpp:191-205 | the expected end of a worker makes room for the pending seek; an unexpected one stops playback |
| `Transports.Transport.Receive` | src/desktop/sequence_transport.cpp:211-274 | what a retired worker still sends changes nothing; each message has its effect |
| `Transports.Transport.Connect` | src/desktop/sequence_transport.cpp:12-34 | only the awaited worker is connected, and it begins at the latest seek |
| `Transports.Transport.StartFails` | src/desktop/sequence_transport.cpp:184-190 | a worker that cannot be started leaves none alive and playback stopped |
| `Transports.Transport.Disconnects` | src/desktop/sequence_transport.cpp:22-25 | only the connected worker's disconnection counts, and it stops playback |
| `Transports.Transport.Tick` | src/desktop/sequence_transport.cpp:35-41 | a worker is given up exactly when it loads too long or plays without reporting |
| `Transports.Transport.Open` | src/desktop/sequence_transport.cpp:85-101 | a new sequence starts at zero, not playing, with a worker unless it is empty |
| `Transports.Transport.Cancel` | src/desktop/sequence_transport.cpp:63-84 | nothing is pending, playing or loading afterwards |
| `Validation.Validate` | src/project/model.cpp:154-249 | the single pass accepts exactly the valid projects |
| `Validation.CheckSource` | src/project/model.cpp:93-121 | the loop over the streams with the set of indices accepts exactly valid probe data |
| `Validation.CheckSelection` | src/project/model.cpp:140-152 | an explicit selection needs a stream of the kind with that index, and for video a video track; any other has index zero |
| `Validation.CheckAsset` | src/project/model.cpp:191-214 | the checks on one asset accept exactly the valid ones |
| `Validation.CheckRecord` | src/project/model.cpp:161-182 | the checks on one audit record accept exactly the valid ones |
| `Validation.CheckClips` | src/project/model.cpp:228-246 | order, sources, gaps and IDs of one track |
| `Validation.Registry.Check` | src/project/model.cpp:185-188 | an ID that is taken was new, positive and allocated; one that is refused shows that the project's IDs are not all so |
| `Model.ComputeSourceOrigin` | src/project/model.cpp:42-54 | the earliest start among the streams, when each has one |
| `Model.ComputeSourceDuration` | src/project/model.cpp:59-82 | the longest reach under a shared clock, the shortest for legacy sources |
| `Model.ExtremeIsExtreme` | src/project/model.cpp:73-76 | no stream reaches further, or less far, than the result |
| `Model.ReachOf` | src/project/model.cpp:61-71 | how far one stream reaches, or refused, step by step |
| `Model.ReachMeans` | src/project/model.cpp:31-82 | in exact seconds: a legacy stream reaches as far as it lasts; under a shared clock by its start minus the earliest start more, a container estimate counting for the whole source, from the earliest start for Matroska; a stream lasts its ticks, else its estimate, else as long as the container |
| `Model.KindOf` | src/project/model.cpp:83-92 | video, audio or both, as some stream is; refused without any |
| `Model.ChooseStream` | src/project/model.cpp:129-138 | the index of the first stream of the kind for an automatic selection, of the named one for an explicit selection exactly when there is one of that kind, and none when disabled or never probed |
| `RationalTimes.Compare` | src/core/time.cpp:22-50 | comparison by continued fractions terminates, stays within 64 bits, and agrees with the exact order and with field-wise equality |
| `RationalTimes.EqualIffSameInstant` | src/core/time.cpp:14-20 | reduced fractions are unique |
| `RationalTimes.Make` | src/core/time.cpp:14-20 | the reduced time has the exact value; negative values and non-positive rates are refused |
| `RationalTimes.MakeReduced` | src/core/time.cpp:14-20 | making a time from its own fields changes nothing |
| `RationalTimes.Plus` | src/core/time.cpp:52-59 | the exact sum, or refused exactly when the scaled sum or the common rate leaves 64 bits |
| `RationalTimes.Minus` | src/core/time.cpp:61-67 | the exact difference, or refused exactly when negative or out of range |
| `RationalTimes.Multiply` | src/core/time.cpp:7-11 | the product, or refused exactly when it leaves 64 bits |
| `Gcds.ReducedFractionsUnique` | src/core/time.cpp:17-19 | equal reduced fractions have equal parts |
| `SourceTimes.MakeSource` | src/core/source_time.cpp:5-10 | a signed time has the exact value; the least 64-bit value is refused |
| `SourceTimes.FromTicks` | src/core/source_time.cpp:11-19 | ticks are converted exactly, or refused exactly when the reduced product leaves 64 bits |
| `SourceTimes.Compare` | src/core/source_time.cpp:20-24 | the signed order is total and agrees with equality |
| `SourceTimes.Since` | src/core/source_time.cpp:25-31 | the exact elapsed time; refused exactly before the origin or when the sum (of different signs) or difference (of equal signs) of the magnitudes leaves 64 bits |
| `SourceTimes.Absolute` | src/decode/decoder.cpp:22-33 | the exact sum of origin and offset; refused exactly when the sum, or for a negative origin the difference, of the magnitudes leaves 64 bits |
| `SourceTimes.AbsoluteRoundTrip` | src/decode/decoder.cpp:22-33 | the time since the origin of an absolute time is the offset |
| `SourceTimes.SinceRoundTrip` | src/core/source_time.cpp:25-31 | the absolute time of an elapsed time is the stamp |

## Left out

- FFmpeg, Qt, sockets, JSON framing, processes, threads, mutexes, deadlines and cancellation flags: foreign or timing code; only the index arithmetic, the block loops and the step protocols around them are modelled.
- Media files: availability and modification checks, probing, thumbnails, playback audio devices and the text of `ffprobe` lines; probe and frame records are modelled as already decoded.
- `describe` texts, `snapshot_bytes` and reply sizes: parameters (`summary`, `bytes`, `World.size`), since only their length matters to the limits.
- Candidates.Candidate.Apply: the private copy is one field that is reassigned, so references into its vectors are positions and aliasing between its parts is not modelled; sorting one track is a function.
- Persistence: the reading and writing functions are recursive specifications; `ProjectFiles` holds the loops over one stream, field by field and record by record, with the extraction of one token, integer or quoted text, and the formatting of one, taken as a single step.
- Rendering.Renderer.Next: a failed call leaves decoders and the frame number advanced, as in the source; the contract then promises only the sample position. Resolution, scaling and the memory of a chunk are not part of this model.
- Rendering.Open: which assets are present on disk is an input; identities and modification times of source files are not part of this model.
- Exporting.ExportSequence: encoders, muxing, staging and the installation of the output file are not part of this model.
- FrameIndexing.BuildIndex: the choice of the single video stream and the byte limit of the probe text are left out.
- Documents.DocumentFile.Save: the project folder is taken to stay where it is; symbolic links, locks and the staging directory of an atomic write are not part of this model.
- AgentSessions.Session.Call: one clock value is used for the whole call; snapshots, exports and tool argument parsing are left out, and the editor's answer to a staged edit is an input whose meaning is proved in `Editing`.
- AgentSessions.Session.Preview: aliases inside a batch and the snapshot in the reply are left out.
- MediaCaching.MediaCache.Request: the use counter is unbounded, and nothing is promised about when a request is served.
- Transports.Transport.Open: building the plan and its preview limits come before any change of state and are left out.
- Transports.Transport.Receive: signals to the window, image decoding and re-entrant calls from observers are left out; positions are seconds.
- Benchmarks, the prototype decoder, Python tools, the desktop window and the command-line front ends.
