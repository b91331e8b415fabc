# janus-client: a verified model

janus-client is a C++ client for the Janus WebRTC gateway. This project models six parts of it in Dafny and proves
what they keep.

**Simulcast rewriting of session descriptions.** `SdpGrammar` are the line recognisers, each proved to accept exactly
the lines of its pattern; `SdpSearch` says declaratively what one pass over the video sections looks for;
`SdpSections` (about lists of lines in general) and `SdpInjection` hold the pass itself and its loops, and prove that
it finds that. `SdpInsertion` proves, in terms of the lines alone, when a block is inserted and how long it is,
`SdpGroup` what its lines say, `SdpReadback` that it is read back to what was printed, and `SdpPlacement` where it
goes, what it leaves alone, and when a second rewriting does nothing; `SdpText` and `SdpMunge` carry this over to
whole texts.

**The media session of a plugin client.** `MediaConfig` are the request flags, `MediaRequest` their normalisation
against the stream that is captured, `Transceivers` and `Senders` the peer connection, `MediaSession` the session as
a value with its steps. `MediaSafety` proves what each request does, in terms of its flags, and what holds over every
run, `MediaSupplied` what becomes of a stream that the application supplies, `MediaSync` when the peer connection sends
exactly what the client holds, `MediaPitfalls` has the runs that reach what goes wrong, and `Trickle` proves that remote
candidates are conserved.
`PluginClient` is the client itself: its fields change in place, and every method is proved to make the step of
`MediaSession` or `Trickle` that specifies it.

**The JSON mapper.** `JsonSchema` are documents, types and values, `JsonCodec` the mapping in both directions and the
round trip, `JsonMeaning` which documents can be read, and as what, without the order in which the mapper goes about
it, `JsonAgreement` and `JsonNarrowing` what decoding does not depend on and how one document decodes at two
types, `JsonTarget` what a decoding leaves in its target, and `JsonMapper` the mapping as loops over a document that
grows and a target that is filled.

**Calls through the weak proxies.** `ProxyThreads` is the blocking call protocol over threads with message queues:
what every interleaving keeps, deadlock freedom of every run with ranked calls, and the return of every call.
`ProxyCalls` adds the objects and proves linearizability, and what every single call does to its object.

**Requests, replies, sessions and handles.** `Correlation` is the transaction table with its queues, `WireText` what is
done to the text of a message before it is parsed, and `MessageTransport` the transport that changes the table in
place; `Signaling` says what a safe history of sessions and handles is and what it does not rule out, and
`SignalingClient` is the client all of whose methods keep its history safe.

**Scheduler and observers.** `Scheduling` is the task scheduler under interleaving, with its mutex; `ObserverList` and
`UniversalObservable` are the observer list, and `Notification` is what happens to notifications over a run in which
observers come and go; the methods of the list are proved to make the steps of that machine.

`Option`, `Runs` and `Gathering` hold the optional value, induction over runs, and lists put together from pieces.

## What the code does that its names do not say

The model follows the code in these places.

- With an m-line after the video section, the block is inserted before the *last line* of the section, not after it
  (`RTCSDK/utils/sdp_utils.cpp:167`); with several video sections it can land outside all of them.
- An m=video line right behind a video section ends that section and opens none, so its own section is not looked at.
- Rewriting a text drops its trailing line feed, so a text that ends in two of them is changed again.
- With a local stream without audio, a request to send audio clears `keepVideo` where `keepAudio` is meant
  (`RTCSDK/plugin_client.cpp:676`). A caller who sets `keepAudio` then gets no audio track.
- Whatever is to be sent first, an audio track is always captured, and a video track whenever there is a camera.
- A request to add or replace a track while both media are off dereferences a missing stream.
- Replacing video without a camera takes the old track out of the local stream but leaves it in its sender.
- An end of candidates that comes before the remote description is dropped, or taken for a candidate; a candidate
  line that cannot be read is handed on as null, in the very call that tells the end of the candidates.
- A reply that is handled between the writing of its request and the registration of its callback is lost.
- Any reply to a detach request, an error too, erases the handle; a new session erases none
  (`RTCSDK/signaling_client.cpp:595`), so requests can carry a handle of an earlier session.
- `cancelAll` waits for the thread while it holds the mutex, so it never returns if a run waits for the mutex then.
- An observer that has been removed is still notified by the tasks that wait for it, and a notification from its own
  thread overtakes them.

## Conventions

Random draws (source numbers, transactions, task ids) are parameters; that transactions and task ids are drawn afresh
is a condition of the steps that draw them. `World` holds what devices and libraries answer: whether there is a
camera, and whether `AddTrack` takes over a spare transceiver. Tracks and observers are told apart by numbers.
Concurrency is a state machine whose steps are what one thread does without interruption. The patterns of the
recognisers anchor at the start of a line; lines never contain line feeds.

## Model

| member | source | states |
|---|---|---|
| SdpGrammar.MediaTypeReadsMediaLines | RTCSDK/utils/sdp_utils.cpp:15-26 | a line is an m-line of a media type exactly if it is `m=` (either case), a token and a space; the token is what is captured |
| SdpGrammar.ParsePairReads | RTCSDK/utils/sdp_utils.cpp:28-40 | the FID recogniser accepts exactly prefix, number, space, number, carriage return, and captures the two numbers |
| SdpGrammar.ParseSsrcLineReads | RTCSDK/utils/sdp_utils.cpp:42-82 | the cname, mslabel and label recognisers accept exactly the source attribute lines with their key, and capture source and value |
| SdpGrammar.ReadingIsUnique | RTCSDK/utils/sdp_utils.cpp:157-203 | no line is accepted by two recognisers, so the order of the tests in the loop does not matter; captures are never empty |
| SdpGrammar.LetterCaseDoesNotCount | RTCSDK/utils/sdp_utils.cpp:15-82 | letters of a pattern match in either case, and what is captured stays as it is |
| SdpSearch.FirstValueIsFirst | RTCSDK/utils/sdp_utils.cpp:182-198 | an attribute is taken from the first line that gives it for the source, and is empty only if no line does |
| SdpSearch.SearchBeforeAnchor | RTCSDK/utils/sdp_utils.cpp:175-180 | while no source is known, one more line changes the outcome exactly if it is a FID or cname line |
| SdpSearch.SearchAfterAnchor | RTCSDK/utils/sdp_utils.cpp:182-202 | once a source is known, one more line changes the outcome only if it gives a missing attribute for that source or is a SIM line |
| SdpInjection.ExamineLine | RTCSDK/utils/sdp_utils.cpp:175-202 | one pass of the loop body, with its `continue` paths, turns the outcome of the declarative search over the lines so far into that over one line more |
| SdpInjection.ScanLine | RTCSDK/utils/sdp_utils.cpp:155-203 | one turn of the loop: a line opens or closes a video section, is examined inside one, and is skipped outside |
| SdpInjection.Scan | RTCSDK/utils/sdp_utils.cpp:152-203 | the loop finds what the declarative search finds in the lines of the video sections, and where the last video section was closed |
| SdpInjection.InjectSsrc | RTCSDK/utils/sdp_utils.cpp:97-104 | appends the four attribute lines of a source and changes nothing before them |
| SdpInjection.InjectSsrcAndFid | RTCSDK/utils/sdp_utils.cpp:106-118 | appends one layer, with a FID group and a repair source exactly if the copied source has one, and returns the primary |
| SdpInjection.PrintGroup | RTCSDK/utils/sdp_utils.cpp:205-214 | prints the layers in order and then the SIM line |
| SdpInjection.Group | RTCSDK/utils/sdp_utils.cpp:205-214 | the block has one line more than 9 lines a layer with repair sources, or 4 without |
| SdpInjection.InjectSimulcast | RTCSDK/utils/sdp_utils.cpp:146-218 | the rewriting as a whole: unchanged unless the search is complete and the layer count is 1 or 2, else prefix, block, suffix; `SdpInsertion.InsertsWhen` says when and how much in terms of the lines |
| SdpInsertion.InsertsWhen | RTCSDK/utils/sdp_utils.cpp:146-218 | for every description with one video section: lines are inserted exactly if one or two layers are asked for, the section has no SIM line, and its first FID or cname line names a source that has a cname, an mslabel and a label line from there on; then 9 lines a layer if that first line is a FID line and 4 if not, and one more; otherwise nothing changes |
| SdpInsertion.RepairedSectionIsGiven | RTCSDK/utils/sdp_utils.cpp:205-217 | every section that starts with a FID line and the lines of its source is given 9 lines a layer and one more |
| SdpInsertion.AdjacentSectionIsNotSeen | RTCSDK/utils/sdp_utils.cpp:157-169 | a complete source behind two adjacent m=video lines is never copied, whatever is asked for |
| SdpGroup.GroupInOrder | RTCSDK/utils/sdp_utils.cpp:205-214 | the block is its layers in order, of 9 or of 4 lines each, and then the SIM line |
| SdpGroup.SsrcTextIsDecimal | RTCSDK/utils/sdp_utils.cpp:84-95 | the text of a new source stands for the number drawn, and has nine characters, or ten if the number needs them |
| SdpGroup.MsidLineLists | RTCSDK/utils/sdp_utils.cpp:101 | split at spaces the msid line names the source, the stream and then the track |
| SdpReadback.FoundIsPrintable | RTCSDK/utils/sdp_utils.cpp:175-205 | what a complete pass has found consists of numbers and tokens |
| SdpReadback.SsrcLineReads | RTCSDK/utils/sdp_utils.cpp:97-104 | a printed cname, mslabel or label line is read back to the same source and value, and as nothing else |
| SdpReadback.FidLineReads | RTCSDK/utils/sdp_utils.cpp:110-112 | a printed FID line is read back to the same pair |
| SdpReadback.MsidLineReads | RTCSDK/utils/sdp_utils.cpp:101 | a printed msid line is read as nothing of interest |
| SdpReadback.SimLineReads | RTCSDK/utils/sdp_utils.cpp:206-214 | the printed SIM line is read as a simulcast group and as nothing else |
| SdpReadback.LayerReadsBack | RTCSDK/utils/sdp_utils.cpp:106-118 | a whole printed layer is read back to its sources with the attributes of the copied one |
| SdpReadback.GroupIsPlain | RTCSDK/utils/sdp_utils.cpp:205-217 | no printed line is an m-line, and one of them is the SIM line |
| SdpPlacement.Idempotent | RTCSDK/utils/sdp_utils.cpp:146-218 | a second rewriting, whatever it draws, changes nothing exactly if the first inserted nothing or inserted inside a video section |
| SdpPlacement.OneSection | RTCSDK/utils/sdp_utils.cpp:157-173 | with a single m=video line the pass examines the lines up to the next m-line, and the block goes to the end of the description, or before the last line of that section |
| SdpPlacement.IdempotentForOneSection | RTCSDK/utils/sdp_utils.cpp:146-218 | for at most one m=video line the rewriting is idempotent, whatever is drawn |
| SdpPlacement.NotIdempotentForTwoSections | RTCSDK/utils/sdp_utils.cpp:165-169 | a family of descriptions with two video sections for which a second rewriting inserts a second block |
| SdpPlacement.MungingKeepsEveryLine | RTCSDK/utils/sdp_utils.cpp:205-217 | every line of the input survives in order around the inserted ones |
| SdpPlacement.MungingKeepsMediaLines | RTCSDK/utils/sdp_utils.cpp:205-217 | the sequence of m-lines never changes |
| SdpText.GetLine | RTCSDK/utils/sdp_utils.cpp:124-126 | one reading up to a delimiter takes the first piece off the text |
| SdpText.Split | RTCSDK/utils/sdp_utils.cpp:120-128 | the pieces between delimiters; none is read after a delimiter at the end |
| SdpText.Join | RTCSDK/utils/sdp_utils.cpp:130-144 | the lines with the separator between them |
| SdpText.JoinAfterSplit | RTCSDK/utils/sdp_utils.cpp:120-144 | joining the pieces of a text gives it back without one trailing delimiter |
| SdpText.SplitAfterJoin | RTCSDK/utils/sdp_utils.cpp:120-144 | splitting joined lines gives them back without one trailing empty line |
| SdpText.SplitInvertsJoin | RTCSDK/utils/sdp_utils.cpp:120-144 | splitting inverts joining exactly for lists whose lines have no delimiter and that are empty or end in a line that is not |
| SdpMunge.MungeText | RTCSDK/plugin_client.cpp:1247-1251 | split, inject and join as offers and answers do |
| SdpMunge.MungedIsFree | RTCSDK/utils/sdp_utils.cpp:205-217 | no inserted line contains a line feed |
| SdpMunge.LastEmptyLineIsIdle | RTCSDK/utils/sdp_utils.cpp:152-205 | an empty last line makes no difference to whether a block is inserted |
| SdpMunge.KeptTexts | RTCSDK/plugin_client.cpp:1247-1251 | a text is kept exactly if no block is inserted and it does not end in a line feed |
| SdpMunge.EndOfMungedText | RTCSDK/plugin_client.cpp:1247-1251 | the result ends in a line feed exactly if the text ends in two of them and the block is not inserted after its last line |
| SdpMunge.TextIdempotent | RTCSDK/plugin_client.cpp:1247-1251 | for every text a second rewriting changes nothing exactly if the block goes inside a video section, if anywhere, and the text does not end in two line feeds, unless the block goes after its last line |
| SdpMunge.TextIdempotentForOneSection | RTCSDK/plugin_client.cpp:1247-1251 | for at most one m=video line only the two line feeds at the end and the place of the block decide |
| SdpMunge.TwoLineFeedsAreNotKept | RTCSDK/plugin_client.cpp:1247-1251 | any one line with two line feeds behind it loses one of them in each rewriting |
| SdpMunge.UnchangedText | RTCSDK/plugin_client.cpp:1247-1251 | without an injection the text only loses its trailing line feed |
| SdpGroup.SimLineLists | RTCSDK/utils/sdp_utils.cpp:205-214 | split at spaces the SIM line lists the original source and then the new primaries in order |
| MediaConfig.IsSendEnabled | RTCSDK/helper_utils.cpp:12-50 | a medium is not sent exactly if there is a configuration in which it is off or its send flag says no |
| MediaConfig.IsRecvEnabled | RTCSDK/helper_utils.cpp:32-70 | a medium is not received exactly if there is a configuration in which it is off or its receive flag says no |
| Transceivers.FindServing | RTCSDK/plugin_client.cpp:1045-1061 | the loop finds the first transceiver that bears audio, and the first that bears video and not audio |
| Transceivers.Settle | RTCSDK/plugin_client.cpp:1062-1102 | the branches for one kind give the direction table, and create a receiving transceiver only where none was found; `ConfiguredFollowsFlags` says what the table means |
| Transceivers.ConfigTracks | RTCSDK/plugin_client.cpp:1040-1144 | both kinds settled over any list, as the flags say: the first serving transceiver of a kind sends exactly if the kind is sent and receives exactly if it is received, at most two directions change, at most one transceiver a kind is appended |
| Transceivers.ConfiguredFollowsFlags | RTCSDK/plugin_client.cpp:1062-1143 | from the flags alone: the first serving transceiver of a kind sends exactly if the kind is on and its send flag does not say no, and receives likewise; with neither it is inactive if the kind is removed and as before if not; one is created, to receive only, exactly if none serves the kind, it is only received, and the library can create it |
| Transceivers.MixedServesAudio | RTCSDK/plugin_client.cpp:1048-1060 | a transceiver with tracks of both kinds serves audio and not video |
| Transceivers.OnlyDirectionsChange | RTCSDK/plugin_client.cpp:1040-1144 | no sender and no receiver changes, and only the first serving transceivers can change direction |
| Transceivers.DirectionIsAsked | RTCSDK/plugin_client.cpp:1062-1143 | afterwards the first serving transceiver has the direction of the send and receive table, and none is missing that was asked for and could be created |
| Transceivers.ConfiguringIsIdempotent | RTCSDK/plugin_client.cpp:1040-1144 | configuring again changes nothing exactly if every transceiver that was needed could be created |
| Senders.PutSendsTheTrack | RTCSDK/plugin_client.cpp:370-389 | after a track is set or added it is the only one of its kind that is sent, and the other kind is as before |
| Senders.AddSendsTheTrack | RTCSDK/plugin_client.cpp:444-458 | adding a track of a kind not sent sends it, and later replacements find it exactly if a spare transceiver is taken over whenever there is one |
| Senders.AppendSendsTheTrack | RTCSDK/plugin_client.cpp:459-487 | a transceiver of its own for a track can be found by later replacements exactly if it is the first of its kind |
| Senders.SilencedSendsNothing | RTCSDK/plugin_client.cpp:784-791 | removing the senders of a kind leaves nothing of that kind sent and the other kind as it was |
| Senders.ConfiguringKeepsSent | RTCSDK/plugin_client.cpp:1040-1144 | `configTracks` never changes what is sent |
| MediaRequest.SettleWish | RTCSDK/plugin_client.cpp:626-652 | the first of add, remove and replace decides; an add where there is a track is turned down; `MediaSafety.TurnedDownWhen` says when a request is |
| MediaRequest.FitAudio | RTCSDK/plugin_client.cpp:653-686 | the audio flags fitted to the local stream; with a stream that has no audio the keep flag of video is dropped in place of that of audio |
| MediaRequest.FitVideo | RTCSDK/plugin_client.cpp:716-749 | the video flags fitted to the local stream |
| MediaRequest.SettleAudio | RTCSDK/plugin_client.cpp:625-686 | all audio branches together |
| MediaRequest.SettleVideo | RTCSDK/plugin_client.cpp:688-749 | all video branches together |
| MediaRequest.SettleRequest | RTCSDK/plugin_client.cpp:624-754 | the whole normalisation: the first kind turned down, or all flags settled |
| MediaRequest.FittedFlags | RTCSDK/plugin_client.cpp:625-749 | after fitting, the flags say exactly whether a track is sent, needed, removed or replaced |
| MediaRequest.KeepsAllWhen | RTCSDK/plugin_client.cpp:755-762 | capture is skipped exactly if both kinds are kept and sent, there is video, and there is audio or the caller set `keepAudio` |
| MediaSafety.KeepingAllIsIdle | RTCSDK/plugin_client.cpp:755-762 | a request that keeps everything leaves the whole session alone |
| MediaSafety.UpdateOutcome | RTCSDK/plugin_client.cpp:613-867 | what every request to a running session with a captured stream leads to, in terms of what was asked |
| MediaSafety.TurnedDownWhen | RTCSDK/plugin_client.cpp:624-754 | a request to a running session with a captured stream is turned down exactly if it adds audio where the stream has audio, or video where it has video; the first of the two is reported |
| MediaSafety.NeverTurnedDown | RTCSDK/plugin_client.cpp:606-754 | no request is turned down in a new session, without a local stream, or with a supplied one |
| MediaSafety.OutcomeByFlags | RTCSDK/plugin_client.cpp:613-867 | the whole outcome of every such request from its flags and the tracks there are: turned down, crashed, or the local stream with a new track where one is added, replaced or missing, none where it is removed, and else those that were there |
| MediaSafety.MediaByFlags | RTCSDK/plugin_client.cpp:606-754 | the flags that the peer connection is configured with: as given in a new session or with a supplied stream but for the keep flags, and settled in a running one |
| MediaSafety.CompletesWhen | RTCSDK/plugin_client.cpp:613-867 | a request completes exactly if it adds no second track of a kind, and adds or replaces none while both media are off |
| MediaSafety.DoesWhatIsAsked | RTCSDK/plugin_client.cpp:357-417 | a request that adds no second track of a kind, and none while both media are off, completes, and each kind ends with exactly the tracks asked for: audio exactly if `keepAudio` is not misread, video exactly if there is a camera when a track is needed |
| MediaSafety.NullStreamWhen | RTCSDK/plugin_client.cpp:365-417 | the missing stream is dereferenced exactly if a track is to be added or replaced while both media are off, and no second track of a kind is asked for |
| MediaSafety.AudioLeavesVideoAlone | RTCSDK/plugin_client.cpp:625-686 | what is asked of audio makes no difference to the video tracks |
| MediaSafety.VideoLeavesAudioAlone | RTCSDK/plugin_client.cpp:688-749 | what is asked of video makes no difference to the audio tracks exactly if `keepAudio` is misread in both requests or in neither |
| MediaSafety.FirstCapture | RTCSDK/plugin_client.cpp:843-866 | without a local stream, anything to be sent captures an audio track, and a video track if there is a camera |
| MediaSafety.ToBeSentByFlags | RTCSDK/plugin_client.cpp:843-866 | a kind is to be sent in a new session exactly if it is on and its send flag does not say no; later to add, remove and replace count first |
| MediaSafety.FirstCaptureIsAsAsked | RTCSDK/plugin_client.cpp:843-866 | a first capture is as asked exactly if the kinds are asked for together, as far as there is a camera |
| MediaSafety.NextStaysOwn | RTCSDK/plugin_client.cpp:582-867 | every step keeps at most one track a kind, all of them created before |
| MediaSafety.NeverTwoOfAKind | RTCSDK/plugin_client.cpp:582-867 | over every run without external streams the local stream holds at most one audio and one video track |
| MediaSupplied.SuppliedStreamIsTaken | RTCSDK/plugin_client.cpp:823-842 | a supplied stream becomes the local one and counts as the application's own, except in a running session in which both kinds are to be sent and kept: then it is ignored |
| MediaSupplied.LocalStreamIsTaken | RTCSDK/plugin_client.cpp:764-842 | the local stream supplied again counts as the application's own; a captured one loses the first track of every kind that is removed or replaced before |
| MediaSupplied.OwnershipStays | RTCSDK/plugin_client.cpp:823-867 | once a stream has been supplied the client does not own its stream, whatever is requested, until it cleans up |
| MediaSync.StreamedSends | RTCSDK/plugin_client.cpp:363-417 | which tracks are sent after new tracks have joined the local stream |
| MediaSync.DroppedSends | RTCSDK/plugin_client.cpp:764-822 | which tracks are sent after tracks have been removed or are about to be replaced |
| MediaSync.RequestKeepsSync | RTCSDK/plugin_client.cpp:764-867 | a completed request keeps sending exactly the held tracks, exactly if there is a camera when video is replaced |
| MediaSync.PublishedSends | RTCSDK/plugin_client.cpp:441-489 | a published stream is sent exactly, and can be replaced later, exactly if existing transceivers are taken over |
| MediaSync.FirstCaptureKeepsSync | RTCSDK/plugin_client.cpp:441-489 | the same for a first capture; rid-based simulcast never takes a transceiver over |
| MediaSync.NextKeepsSync | RTCSDK/plugin_client.cpp:582-867 | every step of a client keeps what is sent and what is held together, a request exactly if it is careful |
| MediaSync.SendsWhatIsHeld | RTCSDK/plugin_client.cpp:582-867 | over every careful run the peer connection sends exactly the tracks of the local stream |
| MediaPitfalls.KeepAudioCanBeMisread | RTCSDK/plugin_client.cpp:673-678 | a run of two requests reaches a session in which `keepAudio` is misread: the third completes without audio |
| MediaPitfalls.NullStreamCanBeReached | RTCSDK/plugin_client.cpp:365-417 | a run of two requests, the second to replace audio while both media are off, dereferences the missing stream |
| MediaPitfalls.AudioCanComeBack | RTCSDK/plugin_client.cpp:626-636 | a run in which audio is removed, after which a request to add audio completes with a new audio track |
| MediaPitfalls.ReplacedVideoCanBeLost | RTCSDK/plugin_client.cpp:764-822 | after a first capture, replacing video without a camera leaves no video in the stream and the old track in its sender |
| MediaPitfalls.OneKindCapturesBoth | RTCSDK/plugin_client.cpp:843-866 | a first request for audio alone captures video too if there is a camera |
| MediaPitfalls.SpareCanBeInTheWay | RTCSDK/plugin_client.cpp:441-489 | a run in which a transceiver of the peer is not taken over, and a first capture comes out of step with what is sent |
| PluginClient.FindBearing | RTCSDK/plugin_client.cpp:373-380 | the loop finds the first transceiver that bears a kind |
| PluginClient.PutTrack | RTCSDK/plugin_client.cpp:370-389 | set the track on the sender found, or add it |
| PluginClient.PublishTracks | RTCSDK/plugin_client.cpp:441-489 | every track of a new local stream is handed to the peer connection |
| PluginClient.RemoveSenders | RTCSDK/plugin_client.cpp:784-791 | every sender of a kind is removed, and no other |
| PluginClient.MediaStream.StopAllTracks | RTCSDK/plugin_client.cpp:318-336 | no track is left in the stream |
| PluginClient.PluginClient.DropTracks | RTCSDK/plugin_client.cpp:764-822 | tracks that are removed or replaced leave the local stream; senders are removed only for removed kinds |
| PluginClient.PluginClient.ExtendAudio | RTCSDK/plugin_client.cpp:365-390 | the first audio track of the new stream joins the local stream and the peer connection |
| PluginClient.PluginClient.ExtendVideo | RTCSDK/plugin_client.cpp:391-416 | the first video track of the new stream joins the local stream and the peer connection |
| PluginClient.PluginClient.UseStream | RTCSDK/plugin_client.cpp:357-489 | `prepareStreams` on the session: the new state, or the dereferenced missing stream |
| PluginClient.PluginClient.TakeSupplied | RTCSDK/plugin_client.cpp:823-842 | a supplied stream becomes the local one, and a captured one that it replaces is stopped |
| PluginClient.PluginClient.Capture | RTCSDK/plugin_client.cpp:844-859 | a fresh stream with a fresh audio track, and a fresh video track if there is a camera |
| PluginClient.PluginClient.AcquireStream | RTCSDK/plugin_client.cpp:823-866 | supplied, captured or no stream |
| PluginClient.PluginClient.SettleMedia | RTCSDK/plugin_client.cpp:613-754 | the flags of a request to a running session, which are left alone for a supplied stream |
| PluginClient.PluginClient.RedoMedia | RTCSDK/plugin_client.cpp:755-866 | keep all tracks, or drop some and acquire others |
| PluginClient.PluginClient.PrepareMedia | RTCSDK/plugin_client.cpp:606-866 | the new session, the settled flags, and nothing changed if the request is turned down |
| PluginClient.PluginClient.ConfigurePeer | RTCSDK/plugin_client.cpp:1167-1169 | the transceivers of the peer connection are configured, and nothing else changes |
| PluginClient.PluginClient.Conclude | RTCSDK/plugin_client.cpp:523-575 | without a description an offer is made; one of the four types is set, which cannot crash now; any other type is reported and nothing changes |
| PluginClient.PluginClient.PrepareWebrtc | RTCSDK/plugin_client.cpp:582-867 | every way the call can end, with the new session, flags, candidates and trickle setting in each case; `MediaSafety.TurnedDownWhen` and `OutcomeByFlags` say which from the flags |
| PluginClient.PluginClient.HandleRemoteJsep | RTCSDK/plugin_client.cpp:879-953 | a description is passed on exactly if its type is known and setting it now would not crash, would tell all cached candidates in order, and would make the peer connection live; a missing peer connection is reported before an unknown type |
| PluginClient.PluginClient.RemoteDescriptionSet | RTCSDK/plugin_client.cpp:543-557 | the cached candidates are told in order and the cache is emptied; with a full cache a missing peer connection is dereferenced |
| PluginClient.PluginClient.OnTrickle | RTCSDK/plugin_client.cpp:1563-1621 | the candidate is told, cached or dropped, and one that cannot be read is handed on as a null candidate; a missing candidate line throws |
| PluginClient.PluginClient.CleanupWebrtc | RTCSDK/plugin_client.cpp:1428-1454 | the session and the candidates are as at the start, and a captured stream is stopped |
| Trickle.NextConserves | RTCSDK/plugin_client.cpp:1563-1621 | every step keeps what was told followed by what is cached equal to what the messages add, in order |
| Trickle.OrderSurvives | RTCSDK/plugin_client.cpp:1579-1620 | a message is added behind everything told and cached exactly if it is not told while a different delivery is cached |
| Trickle.RemoteSetKeepsAccount | RTCSDK/plugin_client.cpp:543-557 | with a peer connection the remote description makes it live, empties the cache, and keeps the account and its order |
| Trickle.AlwaysConserved | RTCSDK/plugin_client.cpp:1563-1621 | the same over every run between cleanups, and nothing is cached once the remote description is set |
| Trickle.MeantAtEveryPoint | RTCSDK/plugin_client.cpp:1579-1620 | for any list of messages: what they add up to is what was meant, after every one of them, exactly if every end comes live, or with a line that cannot be read, and every other candidate line can be read |
| Trickle.ToldWhatWasMeant | RTCSDK/plugin_client.cpp:1579-1620 | over a run the peer connection is told, or will be, after every step what was meant so far exactly if every end of candidates comes when it is live, or with a candidate line that cannot be read, and every other candidate line can be read |
| Trickle.CandidatesAreConserved | RTCSDK/plugin_client.cpp:1579-1620 | the candidates told and cached are the readable, placed, not completed ones received, in order, exactly if no completed one came before it was live |
| Trickle.EarlyEndIsLost | RTCSDK/plugin_client.cpp:1606-1620 | the run whose first message is the end of the candidates: it is never told |
| Trickle.CompletedCandidateIsTold | RTCSDK/plugin_client.cpp:1606-1620 | the run whose first message is a completed candidate: it is cached as a candidate |
| Trickle.UnreadableLineIsTold | RTCSDK/plugin_client.cpp:1611-1619 | the run whose first message has a line that cannot be read: null is cached though nothing was meant |
| Trickle.UnreadableEndIsTold | RTCSDK/plugin_client.cpp:1606-1620 | the run whose first message is a completed candidate that cannot be read: null is cached, as was meant |
| Trickle.NullsCanMakeUp | RTCSDK/plugin_client.cpp:1606-1620 | a run that is wrong after its first message and right again after its second |
| Trickle.LateRemoteDescriptionReorders | RTCSDK/plugin_client.cpp:912-927 | if a remote description is reported set without a peer connection, a candidate can be overtaken by a later one |
| Trickle.TrickledWhen | RTCSDK/plugin_client.cpp:1563-1621 | member by member, for every message and state: null is told for an end or a completed candidate exactly if the connection is live; else a placed candidate is told or cached, null in its stead if its line cannot be read; a missing line throws; anything else is dropped |
| JsonSchema.LookupIgnoresOrder | RTCSDK/json/serialization_json.hpp:289-293 | looking a member up does not depend on the order of members with distinct names |
| JsonSchema.FirstMemberCounts | RTCSDK/json/serialization_json.hpp:289-293 | where names repeat the first member counts |
| JsonCodec.CString | RTCSDK/json/serialization_json.hpp:178-182 | a string is read up to its first NUL |
| JsonCodec.MembersByName | RTCSDK/json/serialization_json.hpp:283-287 | the member of a field can be looked up in the document of its struct, and is absent exactly if the field is |
| JsonCodec.NativeRoundTrip | RTCSDK/json/serialization_json.hpp:157-241 | numbers, booleans, strings and vectors of them are read back up to NULs |
| JsonCodec.FieldRoundTrip | RTCSDK/json/serialization_json.hpp:281-333 | a field is read back from any object that has the member written for it, over any value that is there |
| JsonCodec.StructRoundTrip | RTCSDK/json/serialization_json.hpp:297-362 | a struct of any depth is read back over any struct of its type; what is absent leaves the target as it was |
| JsonCodec.WholeIffNulFree | RTCSDK/json/serialization_json.hpp:178-182 | what is read back equals what was written exactly if no string has a NUL |
| JsonCodec.RoundTrip | RTCSDK/json/serialization_json.hpp:469-508 | written and read into a fresh object a struct of any depth gives no error, and comes back exactly if no string has a NUL |
| JsonMeaning.FieldDecodesWhen | RTCSDK/json/serialization_json.hpp:281-361 | a field is read as a value exactly if its member means that value: an optional one without a member, or with a null one, stays as it was, a vector of structs without a member is empty, and any other must have a member of its type |
| JsonMeaning.DecodesWhen | RTCSDK/json/serialization_json.hpp:490-508 | a document is read as a struct of any depth exactly if every field can be read, and then field by field as what its own member means |
| JsonMeaning.FieldFailsWith | RTCSDK/json/serialization_json.hpp:157-361 | the error of a field: no object, no such member, a member of the wrong type, or the error of a struct inside |
| JsonMeaning.OptionalFailsWith | RTCSDK/json/serialization_json.hpp:316-333 | an optional field fails on what is no object, and as its own type does if there is a member other than null |
| JsonMeaning.FirstErrorIsReported | RTCSDK/json/serialization_json.hpp:490-508 | a struct reports the error of the first field that cannot be read |
| JsonMeaning.EncodedIsWritten | RTCSDK/json/serialization_json.hpp:215-347 | a document says the value whole, at any depth: a member for every field under its name, none for an absent value, strings with their NULs |
| JsonMeaning.OnlyFieldsAreWritten | RTCSDK/json/serialization_json.hpp:283-347 | and it has no other members |
| JsonAgreement.FieldsAgree | RTCSDK/json/serialization_json.hpp:289-333 | objects that say the same about a field decode alike there, errors included |
| JsonAgreement.StructsAgree | RTCSDK/json/serialization_json.hpp:490-508 | documents that say the same about the fields of a struct, at any depth, decode alike, errors included |
| JsonAgreement.OrderDoesNotMatter | RTCSDK/json/serialization_json.hpp:490-508 | the order of members with distinct names does not matter |
| JsonAgreement.UnknownMemberDoesNotMatter | RTCSDK/json/serialization_json.hpp:490-508 | a member that the struct does not name makes no difference |
| JsonNarrowing.DecodedStructFits | RTCSDK/json/serialization_json.hpp:490-508 | decoding yields values of the type |
| JsonNarrowing.NarrowField | RTCSDK/json/serialization_json.hpp:314-333 | a field that decodes at a richer type decodes at a narrower one, to what the narrower type keeps |
| JsonNarrowing.NarrowStruct | RTCSDK/json/serialization_json.hpp:490-508 | a document that decodes at a richer type decodes at every narrower one with equal values on shared fields, at any depth |
| JsonNarrowing.CommonFieldsFirst | RTCSDK/message_models.h:25-32 | if a message decodes, the fields that all messages begin with decode alone, to the same values |
| JsonNarrowing.HeaderFirst | RTCSDK/signaling_client.cpp:296-309 | the header that `onMessage` decodes first cannot fail where the message decodes, and has its values |
| JsonNarrowing.HeaderOfMessage | RTCSDK/message_models.h:25-239 | the same for each kind of message that is decoded after its header: hangup, media, slowlink, plugin events, trickle, and the replies that grant an id |
| JsonMapper.SetValue | RTCSDK/json/serialization_json.hpp:215-241 | the document of a native value |
| JsonMapper.SerializeField | RTCSDK/json/serialization_json.hpp:281-347 | one member is appended for a field, or none if it is absent |
| JsonMapper.Serialize | RTCSDK/json/serialization_json.hpp:92-99 | the document of a struct, field by field |
| JsonMapper.GetValue | RTCSDK/json/serialization_json.hpp:157-199 | a native value read over the one that is there, or the mismatch and what the target is left as |
| JsonMapper.GetItems | RTCSDK/json/serialization_json.hpp:188-199 | a vector is cleared and filled up to the first element that fails |
| JsonMapper.DeserializeField | RTCSDK/json/serialization_json.hpp:289-333 | one field read over the value that is there, with the errors of each kind of type and what the field is left as |
| JsonMapper.DeserializeVector | RTCSDK/json/serialization_json.hpp:348-361 | a vector of structs is cleared before its member is looked for |
| JsonMapper.DeserializeItems | RTCSDK/json/serialization_json.hpp:348-361 | the elements of an array read into fresh structs, up to the first error, and what the vector is left as |
| JsonMapper.Deserialize | RTCSDK/json/serialization_json.hpp:489-504 | the fields of a struct read in order, up to the first error, and what the struct is left as |
| JsonTarget.StructLeftIsRead | RTCSDK/json/serialization_json.hpp:490-508 | without an error the target is left as the value read, at any depth |
| JsonTarget.LeftFieldByField | RTCSDK/json/serialization_json.hpp:490-508 | after an error the fields before the failing one are left as read, those after it as they were, and the failing one as its own reading left it |
| JsonTarget.NativeVectorLeft | RTCSDK/json/serialization_json.hpp:188-199 | a vector of native values is touched only if there is an array to read, and keeps the elements before the first that cannot be read |
| JsonTarget.StructVectorLeft | RTCSDK/json/serialization_json.hpp:348-361 | a vector of structs is emptied in every case, and keeps the elements before the first that cannot be read |
| ProxyThreads.NextKeepsOk | RTCSDK/weak_proxy.cpp:10-23 | every step keeps messages, handlers, waits and calls in agreement: each call is in one place, and its caller waits for it |
| ProxyThreads.AlwaysOk | RTCSDK/weak_proxy.cpp:10-23 | the same in every interleaving of any number of threads |
| ProxyThreads.SomeThreadMoves | RTCSDK/weak_proxy.cpp:10-18 | from any busy thread, along the waits, there is a thread that can take a step |
| ProxyThreads.NoDeadlock | RTCSDK/service/unified_factory.cpp:24-35 | if every call made so far is ranked, some thread can take a step while a call is outstanding |
| ProxyThreads.AlwaysRanked | RTCSDK/service/unified_factory.cpp:24-35 | in every run whose calls go down in rank, every call is ranked after every step |
| ProxyThreads.NeverDeadlocks | RTCSDK/service/unified_factory.cpp:24-35 | in every run from idle threads whose calls go down in rank, some thread can take a step while a call is outstanding |
| ProxyThreads.InternalStepsEnd | RTCSDK/weak_proxy.cpp:10-23 | steps that bring no new work cannot go on for ever |
| ProxyThreads.EveryCallReturns | RTCSDK/weak_proxy.cpp:10-23 | with ranked calls and no new work, every schedule ends within a bound known at the start, and when no thread can take a step every call has returned |
| ProxyThreads.CallsCanReturn | RTCSDK/weak_proxy.cpp:10-23 | and some schedule gets there |
| ProxyThreads.CrossCallsNeverReturn | RTCSDK/weak_proxy.cpp:14-17 | two threads that call each other at once block each other for ever |
| ProxyThreads.BothCanBeBusy | RTCSDK/weak_proxy.cpp:14-17 | a run from idle threads in which two threads are in a handler at once, from where they can call each other |
| ProxyCalls.NextKeepsLog | RTCSDK/weak_proxy.cpp:10-23 | every step keeps the log of calls in order: made, run once on the owner thread, returned |
| ProxyCalls.NextKeepsSequence | RTCSDK/weak_proxy.h:46-197 | every step keeps objects and outcomes those of the sequential program |
| ProxyCalls.Linearizable | RTCSDK/weak_proxy.h:46-197 | in every interleaving the calls take effect as in the sequential program that serves them in the order in which they ran; `EveryCallHasItsEffect` says what serving is |
| ProxyCalls.EveryCallHasItsEffect | RTCSDK/weak_proxy.h:46-197 | in every interleaving, for every body that ran: the method acted on the state that its living object had just before, and on nothing else, and its result is the outcome of the call; a destruction made an end of the object; what had expired was left alone |
| ProxyCalls.RunHasEffect | RTCSDK/weak_proxy.h:46-197 | the same for one step from any state |
| ProxyCalls.OtherStepsHaveNone | RTCSDK/weak_proxy.cpp:10-23 | no step but the body of a call touches an object |
| ProxyCalls.RequestsAreKept | RTCSDK/weak_proxy.cpp:10-23 | a call asks what it was made to ask, of the object it was made on, for good |
| ProxyCalls.DirectCallReturns | RTCSDK/weak_proxy.cpp:10-13 | a handler can call an object of its own thread at any time; three steps later the call has had its effect and has returned, and the thread is where it was |
| ProxyCalls.RanOnceBefore | RTCSDK/weak_proxy.cpp:10-23 | a call that has returned has run exactly once, on the owner thread, before it returned |
| ProxyCalls.RealTimeOrder | RTCSDK/weak_proxy.cpp:10-23 | a call that returned before another was made ran before it |
| ProxyCalls.ExpiredIsNoOp | RTCSDK/weak_proxy.h:54-90 | a call that runs after its object has gone does nothing and returns nothing |
| Correlation.NextKeepsSound | RTCSDK/message_transport.cpp:71-92 | every step of any thread keeps table, queues and posted callbacks in agreement |
| Correlation.AlwaysSound | RTCSDK/message_transport.cpp:134-195 | the same in every interleaving, with writing and registering as two steps |
| Correlation.CalledAtMostOnce | RTCSDK/janus_api_client.cpp:289-305 | a callback is made at most once, and only for a reply with the transaction of its request |
| Correlation.PendingOrCompleted | RTCSDK/message_transport.cpp:172-184 | registered requests are the disjoint union of the pending and the completed ones |
| Correlation.CompletedWhen | RTCSDK/message_transport.cpp:71-81 | a registered callback has been posted exactly if a reply with its transaction was handled after the registration |
| Correlation.EarlyReplyIsLost | RTCSDK/message_transport.cpp:73-79 | a reply that is handled between writing and registering leaves its callback pending |
| Correlation.OneRouteEach | RTCSDK/message_transport.cpp:154-195 | every message that says what it is is in exactly one of the reply queue and the list of notifications, right after the messages before it that took that route; no other message is in any |
| Correlation.ReplyComesFrom | RTCSDK/message_transport.cpp:166-186 | every reply ever queued is exactly one message that was received |
| Correlation.EventComesFrom | RTCSDK/message_transport.cpp:188-195 | every notification is exactly one message that was received |
| MessageTransport.MessageTransport.SendText | RTCSDK/message_transport.cpp:71-75 | the request is written exactly if there is a connection |
| MessageTransport.MessageTransport.RegisterCallback | RTCSDK/message_transport.cpp:76-79 | the callback of a handler goes into the table exactly if the handler has a transaction and a callback |
| MessageTransport.MessageTransport.OnTextMessage | RTCSDK/message_transport.cpp:134-195 | the mended text is parsed; a reply is posted to the message-transport thread, and the listeners are notified exactly of the other messages that say what they are |
| WireText.Find | RTCSDK/message_transport.cpp:141-149 | the first place where a tag stands, or none exactly if it stands nowhere |
| WireText.Mend | RTCSDK/message_transport.cpp:138-152 | the first occurrence of each of the two mistyped values is replaced |
| WireText.MendsOnlyWhatOccurs | RTCSDK/message_transport.cpp:138-152 | a message is parsed as it was received exactly if neither value is in it |
| WireText.UnpublishedIsMended | RTCSDK/message_transport.cpp:138-145 | the first `"unpublished": "ok"` becomes `"unpublished": 0`, and the text around it stays |
| WireText.LeavingIsMended | RTCSDK/message_transport.cpp:146-152 | the first `"leaving": "ok"` becomes `"leaving": 0`, and the text around it stays |
| MessageTransport.MessageTransport.HandleReply | RTCSDK/message_transport.cpp:172-184 | the callback of the reply, if there is one, is posted and erased |
| MessageTransport.MessageTransport.MakeCall | RTCSDK/janus_api_client.cpp:289-305 | the next posted callback is made with the text of its reply |
| Signaling.SafeGrows | RTCSDK/signaling_client.cpp:84-264 | a safe log stays safe when a safe entry is added |
| Signaling.RequestsCarryGrantedSessions | RTCSDK/signaling_client.cpp:487-535 | every request but create carries a session that an earlier create reply granted |
| Signaling.RequestsUseGrantedHandles | RTCSDK/signaling_client.cpp:144-264 | every message, hangup and detach request uses a handle that was granted to a client still alive and not erased since |
| Signaling.HandlesOutliveSessions | RTCSDK/signaling_client.cpp:84-264 | a request uses a handle in the session in which the handle was asked for exactly if no session has been granted in between |
| SignalingClient.HandleOutlivesSession | RTCSDK/signaling_client.cpp:487-521 | a run of the client in which a message request carries a second session and a handle of the first |
| Signaling.EventsReachTheHolder | RTCSDK/signaling_client.cpp:322-334 | an event reaches the client that the handle was granted to last, alive then, and none after the handle was erased, however long it was queued |
| SignalingClient.SignalingClient.FindsTheHolder | RTCSDK/signaling_client.cpp:537-548 | a handle is found exactly if a living client holds it by the log, unless it is -1 |
| SignalingClient.SignalingClient.OnOpened | RTCSDK/signaling_client.cpp:273-284 | a create request is sent |
| SignalingClient.SignalingClient.OnSessionCreated | RTCSDK/signaling_client.cpp:487-521 | the session is granted by the id of the header, or else of the data; data without an id throws, and no data is told apart from that |
| SignalingClient.SignalingClient.BeatHeart | RTCSDK/signaling_client.cpp:523-535 | a keepalive request with the granted session is sent |
| SignalingClient.SignalingClient.CleanUpHandles | RTCSDK/signaling_client.cpp:583-593 | every handle with a living client is told to clean up, and no request is sent |
| SignalingClient.SignalingClient.DestroySession | RTCSDK/signaling_client.cpp:565-617 | a destroy request is sent exactly if there is a session and a connection |
| SignalingClient.SignalingClient.Attach | RTCSDK/signaling_client.cpp:84-125 | an attach request with the granted session is sent |
| SignalingClient.SignalingClient.OnAttached | RTCSDK/signaling_client.cpp:90-121 | a success grants the handle to the client; data without an id throws, and no data is told apart from that |
| SignalingClient.SignalingClient.SendMessage | RTCSDK/signaling_client.cpp:144-191 | a message request is sent exactly if there is a session and the handle has a living client |
| SignalingClient.SignalingClient.Hangup | RTCSDK/signaling_client.cpp:193-209 | a hangup request is sent exactly if asked for and the handle has a living client |
| SignalingClient.SignalingClient.DestroyHandle | RTCSDK/signaling_client.cpp:211-264 | the client is told to clean up, and a detach request is sent exactly if wanted and connected |
| SignalingClient.SignalingClient.OnDetached | RTCSDK/signaling_client.cpp:253-261 | any reply to a detach request erases the handle |
| SignalingClient.SignalingClient.OnMessage | RTCSDK/signaling_client.cpp:296-485 | an event is posted exactly if its header parses, its handle has a living client, its kind is passed on, it decodes where it is decoded again, and a plugin event has plugin data; one without a sender throws |
| SignalingClient.SignalingClient.RunTask | RTCSDK/signaling_client.cpp:325-333 | the handle is looked up again when the task runs, and the event is delivered to the client it has then |
| SignalingClient.PluginHandle.Attach | RTCSDK/plugin_client.cpp:82-89 | the session status is checked before the request |
| SignalingClient.PluginHandle.SendMessage | RTCSDK/plugin_client.cpp:91-98 | the session status is checked before the request |
| SignalingClient.PluginHandle.Hangup | RTCSDK/plugin_client.cpp:100-107 | the session status is checked before the request |
| SignalingClient.PluginHandle.Detach | RTCSDK/plugin_client.cpp:109-116 | the session status is checked before the request |
| Scheduling.NextKeepsIdOk | RTCSDK/utils/task_scheduler.h:42-172 | every step keeps at most one object of each task, and a one-shot task within its one start; `NeverLost` is the lower bound |
| Scheduling.AtMostOnce | RTCSDK/utils/task_scheduler.h:149-172 | over every run a one-shot closure starts at most once, and a repetitive task never has two queued instances |
| Scheduling.NeverLost | RTCSDK/utils/task_scheduler.h:42-90 | over every run a live repetitive task, and a live one-shot task that has not started, has exactly one task object |
| Scheduling.LiveUntilCancelled | RTCSDK/utils/task_scheduler.h:110-124 | over every run a task is live exactly if it has been scheduled and not cancelled since, unless everything is being cancelled, and repeats exactly if scheduled so |
| Scheduling.LiveTasksCanStart | RTCSDK/utils/task_scheduler.h:42-90 | from any such state, unless everything is being cancelled, some steps lead to one more start of a live task that repeats or has not started |
| Scheduling.AlwaysCanStart | RTCSDK/utils/task_scheduler.h:42-124 | over every run: a closure that was scheduled and not cancelled since can start, again if it repeats, and a first time if it does not |
| Scheduling.StartsAfterCancel | RTCSDK/utils/task_scheduler.h:119-124 | after `cancel` a closure starts at most once more, and not at all unless a run had passed its check |
| Scheduling.CancelCanBeLate | RTCSDK/utils/task_scheduler.h:73-90 | a run that is past its check does start its closure after `cancel` |
| Scheduling.CancelAllCanReturn | RTCSDK/utils/task_scheduler.h:126-130 | while `cancelAll` holds the mutex some steps lead to its return exactly if no run waits for the mutex |
| Scheduling.CancelAllReturns | RTCSDK/utils/task_scheduler.h:126-130 | once the thread has been told to stop, and no run waits, every schedule ends within a bound, and then `cancelAll` has returned and no id is live |
| Scheduling.CancelAllCanHang | RTCSDK/utils/task_scheduler.h:126-135 | a run in which `cancelAll` never returns |
| Scheduling.NothingStartsAfterCancelAll | RTCSDK/utils/task_scheduler.h:126-130 | after `cancelAll` has returned no closure ever starts, whatever happens |
| Scheduling.CopyIsUnguarded | RTCSDK/utils/task_scheduler.h:132-135 | a run in which the set of ids can be changed while it is being copied |
| ObserverList.WithoutRemoves | RTCSDK/utils/universal_observable.hpp:33-54 | removing an observer takes out its only entry and no other |
| ObserverList.WithoutIsCut | RTCSDK/utils/universal_observable.hpp:33-54 | the list afterwards is the list with the first entry of that observer cut out, in order |
| ObserverList.ReachedOnce | RTCSDK/utils/universal_observable.hpp:96-133 | a notification reaches every observer that is registered for a thread, and is alive or held by the list, exactly once there, and nobody else |
| ObserverList.InOrderOfRegistration | RTCSDK/utils/universal_observable.hpp:96-133 | on each thread the one who registered first is reached first |
| ObserverList.EachThreadReached | RTCSDK/utils/universal_observable.hpp:96-133 | what a call makes at once and what it posts reach, on each thread, exactly those they have to, in order |
| UniversalObservable.UniversalObservable.HasObserver | RTCSDK/utils/universal_observable.hpp:72-92 | the loop over weak and strong entries says whether the observer is listed |
| UniversalObservable.UniversalObservable.Add | RTCSDK/utils/universal_observable.hpp:17-31 | an observer that is not listed is appended, and nobody is ever listed twice; this is the step of the machine of `Notification` |
| UniversalObservable.UniversalObservable.Remove | RTCSDK/utils/universal_observable.hpp:33-54 | one removal, and the observer is not listed any more; this is the step of that machine |
| UniversalObservable.UniversalObservable.Clear | RTCSDK/utils/universal_observable.hpp:55-58 | nobody is listed any more; this is the step of that machine |
| UniversalObservable.UniversalObservable.Notify | RTCSDK/utils/universal_observable.hpp:96-133 | observers of the current thread are notified at once, the others by tasks behind those posted before, in order of registration; this is the step of that machine |
| UniversalObservable.UniversalObservable.RunTask | RTCSDK/utils/universal_observable.hpp:124-128 | a thread runs its first task, which notifies its observer exactly if that is alive, listed or not; this is the step of that machine |
| Notification.AlwaysAccounted | RTCSDK/utils/universal_observable.hpp:96-133 | in every run, after every step, the notifications of an observer made and waiting are as many as were issued while it is alive, and never more, for any choice of them: none is lost or made twice |
| Notification.RemovalTakesNothingBack | RTCSDK/utils/universal_observable.hpp:33-54 | after a removal exactly the notifications that wait are still made, as long as the observer is alive and not added again |
| Notification.NextKeepsOrder | RTCSDK/utils/universal_observable.hpp:119-128 | a step keeps the notifications of a living observer on one thread in order exactly if it overtakes nothing |
| Notification.InOrderUnlessOvertaken | RTCSDK/utils/universal_observable.hpp:96-133 | over a run they are in order after every step exactly if nobody notifies the observer from that thread itself while earlier ones wait there |
| Notification.RemovedIsStillNotified | RTCSDK/utils/universal_observable.hpp:124-128 | a run in which an observer is notified after its removal |
| Notification.OwnThreadOvertakes | RTCSDK/utils/universal_observable.hpp:119-122 | a run in which a notification overtakes an earlier one |

## Left out

- User interface, rendering, logging, statistics, data channels, DTMF tones, encoding parameters and ICE options: no
  state that the modelled properties depend on.
- Sockets and the websocket library: writing a message and the arrival of a message are steps.
- The JSON text syntax, `std::regex` and the WebRTC library: documents are trees, recognisers are scanners, and a peer
  connection is its transceivers and what it was told about candidates.
- JSON maps, enumerations, floating point numbers and 32-bit integers: no message struct of the gateway protocol has
  such a member.
- An optional of an optional: the mapper compiles it, but writes a present absent value as nothing; `IsProper` shuts
  it out.
- The enabled flag of tracks, and that the library compares tracks by a label that all captured tracks share: here a
  track is only equal to itself, so the bound of one track a kind does not rest on the label.
- The default data channel, the local description, `iceDone` and the sending of descriptions: the test of the trickle
  option at `RTCSDK/plugin_client.cpp:1475` asks whether it is set, not what it says, so no claim is made on when a
  description is sent.
- External streams in the runs of `MediaSafety` and `MediaSync`: the steps and the methods model them, but the runs
  are those without, because a client that is given one keeps treating later captures as external.
- Senders.Added: takes over the first spare transceiver or none; what else the library may do is not modelled.
- ProxyCalls.Linearizable: the effect of a body on its object is one step; calls that the body makes come before or
  after it.
- Correlation.NextKeepsSound: the binary variant of `send` is the same two steps and has no methods of its own.
- Reconnecting to a session and sending local candidates (`claim`, `trickle`): neither checks a session or a handle.
- That a client is told to clean up when it is detached: the posted task looks the handle up again, and the detach
  reply may have erased it by then.
- Scheduling.NextKeepsIdOk: the scheduler is a machine over values, not a class, and the copy of the set of ids is one
  step; a copy that overlaps a change is undefined in C++.
- Closures that call the scheduler themselves, and a scheduler that is destroyed by its own thread.
- SignalingClient.SignalingClient.OnSessionCreated: a reply without data is read through an empty optional, which C++
  leaves undefined; the model stops there. The same holds for `OnAttached`.
- Notification.AlwaysAccounted: a call of `notifyObservers` is one step; what its callbacks do to the list comes after
  it, and has no influence on the copy that it iterates over.
- Participants and subscriptions of the video room: the join loop keeps the streams of the last publisher only, and
  participants are never removed.
- Null observers: the callers of the list pass observers that they hold.
