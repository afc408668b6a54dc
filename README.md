# AAMP GStreamer plugins, modelled in Dafny

This project models the core of the RDK AAMP GStreamer plugins. It has six modules:

- **`AampStreamer`** (`aamp_streamer.dfy`) models the `aamp` element. The player core hands it elementary-stream data through `GstAampStreamer`. The element turns that data into buffers and events on a video pad and an audio pad:
  - for a muxed stream, each pad has a bounded queue drained by a pad task;
  - for a demuxed stream, items go straight to the pad.

  The module also covers the tune/ready handshake with the GStreamer state machine and the seek branch of the source-pad event handler.
- **`CdmiDecryptor`** (`cdmi_decryptor.dfy`) models the CDMi decryptor element. It covers:
  - the subsample layout of a protected sample, meaning the gather into one cipher buffer and the scatter back;
  - the key gate in front of the DRM session;
  - the decrypt-failure escalation;
  - the chunk list attached for secure video paths;
  - the caps rewriting into and out of `application/x-cenc`;
  - the protection event and the state changes.
- **`SubtecMp4`** (`subtec_mp4.dfy`) models the subtitle MP4 transform. It walks ISO-BMFF boxes in a buffer. A buffer with `ftyp` is dropped, and an `mdat` payload is moved to the front of its buffer. It also maps caps between `application/mp4` and the subtitle formats.
- **`ViperTransform`** (`viper_transform.dfy`) models the TTML transform. It classifies the stream from its first buffers: harmonic UHD (several XML documents per buffer), linear offset, or passthrough. A harmonic buffer is split into one buffer per document, retimed across the input's duration. In the linear cases it stamps the learnt offset.
- **`SubtecSink`** (`subtec_sink.dfy`) models the subtitle sink. It forwards rendered bytes to a subtitle channel. It announces the playback position once after each start or flush. It mirrors state changes and the mute property as control packets.
- **`AampSrc`** (`aamp_src.dfy`) models the `aampsrc` stub source. It stores an `aamp://` URI as `http://` in a C string it owns, and rewrites that string in place when the URI is read back. It also hands out one 8-byte buffer per `create` call and answers the URI and latency queries.

`Common` (`common.dfy`) holds the shared pieces:
- 64-bit unsigned and signed reinterpretation;
- truncating division;
- big-endian integers in byte buffers;
- substring search with `std::string::find` semantics;
- caps structures;
- the GStreamer state-change enums.

## Modelling conventions

**Foreign calls.** Calls into code outside these files become parameters or logs. These include:
- the DRM session's `decrypt`;
- `createDrmSession`;
- downstream pads;
- the player instance;
- the parent classes' handlers;
- `SubtecChannel`.

A downstream verdict is a function parameter (`flowOk`, `decrypt`). A parent class's answer is an input (`parentResult`). The calls an element makes are appended to a log field: pad items, decrypt calls, posted errors, channel packets, player calls.

**Waits.** The condition-variable waits become one of three things:
- a precondition: the queue has room, or the state is at least READY;
- an explicit description of what ended the wait (the decryptor's `Wakeup`);
- an output flag saying that the call blocked or woke a blocked call (`AampSrc.Src.Create`, `AampSrc.Src.ChangeState`).

**Integers.** Integers are unbounded. Wherever the source's width matters, it is written out:
- `guint64` wrap-around;
- `gint64` reinterpretation of `GstClockTime`;
- the `gushort` failure counter;
- the `uint32_t` narrowing of a mapped size;
- the `int` narrowing of a segment duration.

**Strings and buffers.** C strings are `seq<char>`, and byte buffers are `seq<byte>` or `array<byte>`. The TTML text is a `string` of its bytes.

**Behaviour of the code.** Two details are modelled as the code has them:
- The decryptor has no separate output-protection failure counter. Only `decryptFailCount` and `notifyDecryptError` exist, and a success resets the counter without re-arming the notification (drm/gst/gstaampcdmidecryptor.cpp:843-866).
- `gst_aamp_configured` accepts any state from CONFIGURED on, which includes SHUTTING_DOWN and ERROR (gstaamp.cpp:1186-1198).

## Model

| member | source | states |
|---|---|---|
| AampStreamer.PushOne | gstaamp.cpp:101-147 | A buffer on a paused stream never reaches the pad. An event is always pushed. A refused buffer pauses the stream. The result reports whether an EOS went out. The queue is untouched. |
| AampStreamer.Added | gstaamp.cpp:154-197 | add_item on a flow: pushed at once without pad tasks, dropped while flushing, otherwise queued; AddedEvent and DeliveredTrans state its effect. |
| AampStreamer.Delivered | gstaamp.cpp:154-197 | What add_item does to the queue and to the pad for each setting of pad tasks and flushing; DeliveredTrans proves it composes. |
| AampStreamer.Drain | gstaamp.cpp:203-238 | The drain loop stops on a flush, which changes nothing. The stream ends paused exactly when it was paused or a push failed. The queue never grows. |
| AampStreamer.DrainSendsPrefix | gstaamp.cpp:203-238 | What the pad receives from a drain is a prefix of the queue, taken from its head. |
| AampStreamer.DrainKeepsRest | gstaamp.cpp:208-237 | What stays queued is the rest of the queue after what was sent, less a buffer popped on a paused stream. |
| AampStreamer.DrainIsFifo | gstaamp.cpp:208-237 | The drain is first-in first-out: a prefix goes to the pad and the suffix stays queued. |
| AampStreamer.DrainNothingQueued | gstaamp.cpp:218-222 | A drain that ran out of items delivered the whole queue in order. |
| AampStreamer.DrainEndsWithEos | gstaamp.cpp:203-238 | A drain that stopped on EOS left EOS as the last item the pad received. |
| AampStreamer.DrainDeliversEvents | gstaamp.cpp:101-238 | Leading non-EOS events are all delivered when no flush runs. A buffer after them on a paused stream stops the drain and is lost. |
| AampStreamer.DeliveredTrans | gstaamp.cpp:154-197 | Two deliveries through add_item compose into one delivery of the concatenated items. |
| AampStreamer.AddedEvent | gstaamp.cpp:154-197 | add_item of an event queues it (pad tasks, no flush), drops it (flushing) or pushes it (no pad tasks). It never touches the paused flag. |
| AampStreamer.StreamStartStep | gstaamp.cpp:507-520 | The stream-start step delivers stream-start then caps and unpauses the stream. |
| AampStreamer.FlushStep | gstaamp.cpp:521-532 | The flush step delivers flush-start then flush-stop and leaves the stream paused. |
| AampStreamer.ResetStep | gstaamp.cpp:533-545 | The position-reset step unpauses the stream and delivers a segment starting at the buffer's pts. |
| AampStreamer.PendingEvents | gstaamp.cpp:507-547 | SendPendingEvents on a stream value: stream-start, flush and reset steps in that order, all flags cleared; PendingEventsEffect states its effect. |
| AampStreamer.PendingEventsEffect | gstaamp.cpp:507-547 | SendPendingEvents clears every pending flag. It delivers exactly the pending events, in order: stream-start and caps, flush-start and flush-stop, segment. The stream ends paused exactly when a flush was pending without a reset (or it was paused and nothing reset it). |
| AampStreamer.SeekCalls | gstaamp.cpp:1691-1714 | A NONE seek sets the rate only. A SET seek sets rate and position. An END seek makes no player call. |
| AampStreamer.StopAndFlushDiscardsQueue | gstaamp.cpp:259-318 | With pad tasks, stop_and_flush leaves an empty queue and flush-start then flush-stop as the pad's last two events. |
| AampStreamer.SegmentPrecedesDiscontBuffer | gstaamp.cpp:402-452 | After a position reset, the next buffer is preceded by a segment at its own pts and carries DISCONT. |
| AampStreamer.PausedCopyDropsBuffer | gstaamp.cpp:363-454 | On the copy path a paused stream gets only its pending events, never the buffer. |
| AampStreamer.HelperStream | gstaamp.cpp:337-463 | SendHelper on a stream value: pending events, then the buffer unless downloads are off or a paused copy; SegmentPrecedesDiscontBuffer and PausedCopyDropsBuffer state its effect. |
| AampStreamer.FlushWithoutResetStallsBuffers | gstaamp.cpp:507-547 | A flush request without a position reset leaves the stream paused. The pad task then delivers the flush events and stops at the first buffer. |
| AampStreamer.SeekPosition | gstaamp.cpp:1697-1707 | A SET seek's position is stop (reverse) or start (forward), divided by GST_SECOND as gint64 with truncation toward zero. |
| AampStreamer.ReverseSeekWithoutStop | gstaamp.cpp:1697-1707 | A reverse seek with stop -1 asks for position 0. |
| AampStreamer.ConfiguredState | gstaamp.cpp:856-948 | A state before CONFIGURED becomes CONFIGURED once any pad was created; a later state is kept. |
| AampStreamer.ConfiguredStateAsWritten | gstaamp.cpp:940-945 | The CONFIGURED test as written, on the audio caps only; VideoOnlyNeverConfigured exhibits the difference. |
| AampStreamer.VideoOnlyNeverConfigured | gstaamp.cpp:856-948 | As written, a video-only configure leaves TUNING, so the NULL_TO_READY wait is not ended by it. The corrected test reaches CONFIGURED. |
| AampStreamer.AudioEnabledAfter | gstaamp.cpp:784-833 | Whether update_audio_src_pad leaves the audio pad enabled: with a pad, exactly at normal rate; without, unchanged. UpdateAudioSrcPad and ConfigureAgainKeepsPads use it. |
| AampStreamer.AudioPadUpdated | gstaamp.cpp:784-833 | The audio stream after update_audio_src_pad: a newly enabled pad owes a stream start. UpdateAudioSrcPad and ConfigureAgainKeepsPads use it. |
| AampStreamer.ConfiguredControls | gstaamp.cpp:856-948 | The controls after Configure: seekFlush cleared; already CONFIGURED, the audio pad updated; otherwise pad tasks by `muxed` and ConfiguredState. FirstConfigureCreatesPads and ConfigureAgainKeepsPads state what it means. |
| AampStreamer.ConfiguredStreams | gstaamp.cpp:856-948 | The streams after Configure: both unpaused; already CONFIGURED, the audio pad updated; otherwise a pad and an empty queue for each format with caps. There are always two streams. |
| AampStreamer.FirstConfigureCreatesPads | gstaamp.cpp:856-948 | A first Configure gives each format with caps a pad and an empty, unpaused queue, keeps the other stream's pad and queue, selects pad tasks by `muxed`, and reaches CONFIGURED iff some format had caps. |
| AampStreamer.ConfigureAgainKeepsPads | gstaamp.cpp:862-868 | A Configure when already CONFIGURED keeps state, pad tasks, pads and queues, unpauses both streams, enables the audio pad iff the rate is normal, and only a newly enabled audio pad owes a stream start. |
| AampStreamer.TuneOutcome | gstaamp.cpp:1186-1198 | What ends the NULL_TO_READY wait: a Configure, a tune failure (ERROR) or a spurious wake-up; there are always two streams. |
| AampStreamer.TuneOutcomeConfigured | gstaamp.cpp:1387-1396 | From TUNING, the element counts as configured iff the tune failed (ERROR, by the `>=` test) or a Configure had some caps; the state reached is ConfiguredState, ERROR or TUNING. |
| AampStreamer.Aamp.constructor | gstaamp.cpp:985-1008 | Both streams are zeroed and then marked by Discontinuity, so each owes a segment and a DISCONT on its first buffer. The state is NONE, the rate is normal, and nothing is sent. |
| AampStreamer.Aamp.Push | gstaamp.cpp:101-147 | gst_aamp_push on one stream changes that stream's flow as PushOne says and nothing else. |
| AampStreamer.Aamp.AddItem | gstaamp.cpp:154-197 | add_item: the queue stays within the bound. The item is queued, dropped or pushed as Added says. |
| AampStreamer.Aamp.PushNextItem | gstaamp.cpp:203-238 | The pad task's loop leaves the stream as Drain says and returns its stop reason. |
| AampStreamer.Aamp.StreamFlush | gstaamp.cpp:259-291 | Every stream with a pad has its queue emptied when pad tasks are used. |
| AampStreamer.Aamp.StopAndFlush | gstaamp.cpp:297-318 | Every stream is flushed and gets flush-start then flush-stop; `flushing` ends FALSE. |
| AampStreamer.Aamp.SendPendingEvents | gstaamp.cpp:507-547 | The stream becomes PendingEvents of its old value; the other stream and the controls are unchanged. |
| AampStreamer.Aamp.IsReady | gstaamp.cpp:1206-1218 | gst_aamp_ready is TRUE iff the state is READY, and FALSE iff it is SHUTTING_DOWN or ERROR. |
| AampStreamer.Aamp.IsConfigured | gstaamp.cpp:1186-1198 | gst_aamp_configured is TRUE iff the state is CONFIGURED, READY, SHUTTING_DOWN or ERROR. |
| AampStreamer.Aamp.PauseAllStreams | gstaamp.cpp:366-372 | Every stream is marked paused and nothing else changes. |
| AampStreamer.Aamp.Deliver | gstaamp.cpp:363-454 | The fed stream becomes HelperStream of its old value. A paused copy pauses the other stream too. |
| AampStreamer.Aamp.SendEventsAndBuffer | gstaamp.cpp:400-454 | The pending events go out, then the buffer when it is pushed, flagged DISCONT after pending events. |
| AampStreamer.Aamp.SendHelper | gstaamp.cpp:337-463 | Data is accepted iff the streamer was ready or the element is READY. Nothing changes when it is refused or there is no pad. |
| AampStreamer.Aamp.EndOfStreamReached | gstaamp.cpp:599-613 | A stream with a pad gets EOS through add_item. The other stream and the controls are unchanged. |
| AampStreamer.Aamp.Discontinuity | gstaamp.cpp:615-626 | Only the named stream is marked for a position reset; the answer is always false. |
| AampStreamer.Aamp.Flush | gstaamp.cpp:628-640 | A flush is requested on every stream only while seekFlush is FALSE, so a repeated call changes nothing. |
| AampStreamer.Aamp.Stop | gstaamp.cpp:642-652 | Every stream is marked for flush and position reset; seekFlush becomes TRUE. |
| AampStreamer.Aamp.Stream | gstaamp.cpp:698-706 | Every stream is marked for a position reset. |
| AampStreamer.Aamp.UpdateAudioSrcPad | gstaamp.cpp:784-833 | The audio pad is enabled iff the rate is normal (AudioEnabledAfter). Enabling re-arms stream-start and the pending flag (AudioPadUpdated). The video stream and the other controls are untouched. |
| AampStreamer.Aamp.Configure | gstaamp.cpp:856-948 | Corrected (Findings row 6): the new controls and streams are ConfiguredControls and ConfiguredStreams of the old ones, after the unpause of GstAampStreamer::Configure (494-496). FirstConfigureCreatesPads and ConfigureAgainKeepsPads state what they mean. |
| AampStreamer.Aamp.TuneFailed | gstaamp.cpp:1083-1087 | A failed tune sets the state to ERROR and changes nothing else. |
| AampStreamer.Aamp.ChangeState | gstaamp.cpp:1256-1412 | NULL_TO_READY fails without a URI. Otherwise it tunes. After the parent, the state and streams are the TuneOutcome of the tune, and the answer fails exactly when nothing configured the element or no format had caps. READY_TO_PAUSED re-arms the video pad, updates the audio pad and sets READY, changing nothing else. PAUSED_TO_READY stops and flushes. The parent's answer is returned. |
| AampStreamer.Aamp.BeforeParent | gstaamp.cpp:1264-1346 | NULL_TO_READY without a URI is refused with nothing changed; with one, the state becomes TUNING and a tune is requested. READY_TO_PAUSED re-arms the video pad, updates the audio pad as UpdateAudioSrcPad does and sets READY; the other controls are kept. PAUSED_TO_READY stops and flushes when pad tasks run. The other transitions change nothing. |
| AampStreamer.Aamp.AfterParent | gstaamp.cpp:1357-1410 | NULL_TO_READY: the controls and streams are the TuneOutcome of the tune (a Configure, ERROR, or nothing), and the answer fails iff the state is before CONFIGURED. READY_TO_PAUSED answers NO_PREROLL when live and changes nothing. PAUSED_TO_READY sets SHUTTING_DOWN and stops the player. |
| AampStreamer.Aamp.SeekFlush | gstaamp.cpp:1674-1685 | A flushing seek sets seekFlush and stops and flushes both streams; otherwise nothing changes. |
| AampStreamer.Aamp.SeekRate | gstaamp.cpp:1686-1714 | A new rate reaches the streamer and the element; the player gets the calls SeekCalls lists. |
| AampStreamer.Aamp.ResumeAll | gstaamp.cpp:1709-1710 | A SET seek unpauses both streams. |
| AampStreamer.Aamp.Seek | gstaamp.cpp:1661-1716 | Only TIME seeks are handled. They flush (when flushing), change the rate, call the player and resume. |
| CdmiDecryptor.CipherIndexTo | drm/gst/gstaampcdmidecryptor.cpp:785-817 | A sample byte's position in the cipher buffer lies below the cipher count and within the described span. |
| CdmiDecryptor.CipherWithinSpan | drm/gst/gstaampcdmidecryptor.cpp:785-817 | The cipher bytes of the first n entries never exceed the bytes they span. |
| CdmiDecryptor.SpanMonotone | drm/gst/gstaampcdmidecryptor.cpp:785-817 | Span and cipher counts grow with the number of entries. |
| CdmiDecryptor.Span | drm/gst/gstaampcdmidecryptor.cpp:796-816 | The bytes the subsample loops walk: all clear and encrypted counts; CipherWithinSpan and SampleLayout bound it by the sample. |
| CdmiDecryptor.GatherTo | drm/gst/gstaampcdmidecryptor.cpp:785-817 | The gathered buffer's length is the sum of the cipher counts (cbData). |
| CdmiDecryptor.Gather | drm/gst/gstaampcdmidecryptor.cpp:785-817 | The cipher buffer handed to decrypt is cbData long; GatherAt and CipherPosition place each byte. |
| CdmiDecryptor.ScatterTo | drm/gst/gstaampcdmidecryptor.cpp:903-934 | Scatter keeps the sample's length. |
| CdmiDecryptor.Scatter | drm/gst/gstaampcdmidecryptor.cpp:903-934 | The sample after the clear bytes are copied back keeps its length; ScatterGather and GatherScatter prove it inverts Gather. |
| CdmiDecryptor.GatherAt | drm/gst/gstaampcdmidecryptor.cpp:785-817 | Gather puts each encrypted sample byte at its cipher index. |
| CdmiDecryptor.CipherPosition | drm/gst/gstaampcdmidecryptor.cpp:785-817 | Every index of the cipher buffer comes from one sample byte. |
| CdmiDecryptor.ScatterWritesCipherOnly | drm/gst/gstaampcdmidecryptor.cpp:903-934 | Scatter never touches clear ranges or the sample's tail. |
| CdmiDecryptor.ScatterGather | drm/gst/gstaampcdmidecryptor.cpp:785-934 | With an identity decrypt, gather then scatter leaves the sample unchanged, byte for byte. |
| CdmiDecryptor.GatherScatter | drm/gst/gstaampcdmidecryptor.cpp:785-934 | Scattering decrypted bytes and gathering again gives those bytes back. |
| CdmiDecryptor.ScatterStep | drm/gst/gstaampcdmidecryptor.cpp:922-932 | One more entry scattered overwrites exactly its encrypted range. |
| CdmiDecryptor.ParseSubsamples | drm/gst/gstaampcdmidecryptor.cpp:798-801 | The blob reads as `count` (uint16 clear, uint32 cipher) big-endian entries iff it holds 6·count bytes. |
| CdmiDecryptor.EncodeSubsamples | drm/gst/gstaampcdmidecryptor.cpp:798-801 | An encoded blob has 6 bytes per entry. |
| CdmiDecryptor.EncodedEntry | drm/gst/gstaampcdmidecryptor.cpp:798-801 | Entry i of an encoded blob reads back as its clear and cipher counts. |
| CdmiDecryptor.ParseEncoded | drm/gst/gstaampcdmidecryptor.cpp:798-801 | Parsing an encoded blob gives back the entries. |
| CdmiDecryptor.DecryptStep | drm/gst/gstaampcdmidecryptor.cpp:843-866 | A failure increments the gushort counter, and posts the error iff notification is armed and the count reached 5; posting disarms it. A success resets the counter only. |
| CdmiDecryptor.RunDecrypts | drm/gst/gstaampcdmidecryptor.cpp:843-866 | The counter stays within 16 bits over any run of decrypts. |
| CdmiDecryptor.ErrorPostedAtMostOnce | drm/gst/gstaampcdmidecryptor.cpp:843-866 | The decrypt error is posted at most once, and never once notification is off. |
| CdmiDecryptor.ConsecutiveFailuresEscalate | drm/gst/gstaampcdmidecryptor.cpp:843-866 | Consecutive failures post the error exactly when the count reaches the threshold. |
| CdmiDecryptor.SampleLayoutAsWritten | drm/gst/gstaampcdmidecryptor.cpp:700-832 | A missing field gives NOT_SUPPORTED. A zero iv_size or a false `encrypted` gives a clear sample. subsample_count 0 makes the whole buffer one block. There is no bounds check. |
| CdmiDecryptor.SampleLayout | drm/gst/gstaampcdmidecryptor.cpp:700-832 | The checked layout refuses entries spanning more than the mapped size and otherwise agrees with the code. |
| CdmiDecryptor.UncheckedGatherOverruns | drm/gst/gstaampcdmidecryptor.cpp:785-817 | A 16-byte cipher entry in an 8-byte sample passes as written; the checked layout refuses it. |
| CdmiDecryptor.SvpChunks | drm/gst/gstaampcdmidecryptor.cpp:549-596 | Under `USE_SAGE_SVP`, the SVP chunk list is the subsample entries, or one all-encrypted chunk of cbData bytes. |
| CdmiDecryptor.SvpChunksCoverCipher | drm/gst/gstaampcdmidecryptor.cpp:549-596 | The chunk list covers exactly the encrypted bytes handed to the session. |
| CdmiDecryptor.SelectedProtection | drm/gst/gstaampcdmidecryptor.cpp:206-219 | The protection system is chosen once, from the first structure, and only as PlayReady or Widevine. |
| CdmiDecryptor.ToCenc | drm/gst/gstaampcdmidecryptor.cpp:220-260 | The SRC rewrite renames to application/x-cenc and records the original media type and protection system. It removes the video fields and keeps every other field. |
| CdmiDecryptor.FromCenc | drm/gst/gstaampcdmidecryptor.cpp:261-281 | The SINK rewrite skips structures lacking original-media-type. It strips exactly the DRM-prefixed fields and renames to the original type. |
| CdmiDecryptor.CencRoundTrip | drm/gst/gstaampcdmidecryptor.cpp:220-281 | SRC then SINK rewriting restores a structure that had no video or DRM fields. |
| CdmiDecryptor.Rewrite | drm/gst/gstaampcdmidecryptor.cpp:220-281 | The per-structure rewrite: ToCenc on the SRC pad, FromCenc (possibly nothing) on the SINK pad; CencRoundTrip relates the two. |
| CdmiDecryptor.TransformedCaps | drm/gst/gstaampcdmidecryptor.cpp:194-299 | The caps transform_caps builds before filtering; TransformedCapsUnique and TransformedCapsExact state what it holds. |
| CdmiDecryptor.RewritesOfInit | drm/gst/gstaampcdmidecryptor.cpp:230-290 | The rewrites of a caps list are those of its prefix plus those of its last structure. |
| CdmiDecryptor.TransformedCapsUnique | drm/gst/gstaampcdmidecryptor.cpp:173-191 | The transformed caps never hold a structure twice. |
| CdmiDecryptor.TransformedCapsExact | drm/gst/gstaampcdmidecryptor.cpp:173-290 | The transformed caps hold exactly the rewrites of the input structures. |
| CdmiDecryptor.AppendIfNotDuplicate | drm/gst/gstaampcdmidecryptor.cpp:173-191 | The structure is appended unless an equal one is present; the old list is a prefix. |
| CdmiDecryptor.RewriteAll | drm/gst/gstaampcdmidecryptor.cpp:230-290 | The loop over input structures builds TransformedCaps. |
| CdmiDecryptor.MediaTypeOf | drm/gst/gstaampcdmidecryptor.cpp:1026-1060 | The audio types give Audio, H.264 and H.265 give Video, and nothing gives Manifest. |
| CdmiDecryptor.CdmiDecryptorElement.TransformCaps | drm/gst/gstaampcdmidecryptor.cpp:194-299 | Only selectedProtection changes; the output is TransformedCaps. |
| CdmiDecryptor.CdmiDecryptorElement.constructor | drm/gst/gstaampcdmidecryptor.cpp:119-147 | The element starts with no key, no wait allowed, count 0 and notification armed. |
| CdmiDecryptor.CdmiDecryptorElement.SinkEventProtection | drm/gst/gstaampcdmidecryptor.cpp:998-1165 | The gate becomes Protected of the old one, and ProtectedEffect spells that out: another system's event is consumed (TRUE) without a session. Unmappable init data, an unknown media type or no aamp instance answer FALSE. The stream type is learnt once, from the sink caps. A created session sets streamReceived, and a failed one leaves it. The condition is signalled. |
| CdmiDecryptor.CdmiDecryptorElement.ProtectionBranches | drm/gst/gstaampcdmidecryptor.cpp:1005-1165 | The early exits and the session request leave the gate as Protected says, and answer TRUE iff the event is another system's or a session was requested. |
| CdmiDecryptor.ProtectedEffect | drm/gst/gstaampcdmidecryptor.cpp:1005-1165 | Field by field: a session is requested iff RequestsSession holds, and only then do the session, the key flag and the signal count change; the stream type changes iff it is learnt; aamp is known afterwards iff it was or the event found one; another system's event changes nothing. |
| CdmiDecryptor.Protected | drm/gst/gstaampcdmidecryptor.cpp:1005-1165 | The gate after a protection event: the exits change nothing, the stream type is learnt, aamp looked up, then the session requested, the key flag set on success and the condition signalled. ProtectedEffect states it field by field. |
| CdmiDecryptor.Woken | drm/gst/gstaampcdmidecryptor.cpp:674-684 | The gate after the wait ends by a protection event (Protected), PAUSED_TO_READY (no more waits, a signal) or a spurious wake-up (nothing). KeyGate states it. |
| CdmiDecryptor.GateAfter | drm/gst/gstaampcdmidecryptor.cpp:662-692 | The gate after the key gate: unchanged unless waiting is allowed and no key arrived, then Woken. KeyGate and TransformIp state it. |
| CdmiDecryptor.CdmiDecryptorElement.ChangeState | drm/gst/gstaampcdmidecryptor.cpp:1181-1213 | READY_TO_PAUSED allows waiting. PAUSED_TO_READY forbids it and signals. |
| CdmiDecryptor.CdmiDecryptorElement.KeyGate | drm/gst/gstaampcdmidecryptor.cpp:662-692 | The gate proceeds iff a key and a session are there afterwards. The new gate is GateAfter the old one: without a key and no wait allowed, or with the key, nothing changes; otherwise the wake-up acts (a protection event as Protected says, PAUSED_TO_READY forbids waits and signals, a spurious wake-up changes nothing). A wait ended by a protection event that creates a session proceeds. |
| CdmiDecryptor.CdmiDecryptorElement.MarkFirstSegment | drm/gst/gstaampcdmidecryptor.cpp:938-950 | The first segment is marked processed once an aamp instance is known. |
| CdmiDecryptor.CdmiDecryptorElement.DecryptWhole | drm/gst/gstaampcdmidecryptor.cpp:818-866 | A sample without subsamples is decrypted in place as one block; an empty one is not decrypted. |
| CdmiDecryptor.CdmiDecryptorElement.DecryptSubsamples | drm/gst/gstaampcdmidecryptor.cpp:785-934 | The cipher ranges are gathered, decrypted in one call, and scattered back unless the session returned a secure handle. |
| CdmiDecryptor.CdmiDecryptorElement.TransformIp | drm/gst/gstaampcdmidecryptor.cpp:606-978 | Corrected (Findings row 1), using SampleLayout. No meta: OK, untouched. A protected sample passes the key gate as GateAfter says, and is refused unless it leaves a key and a session. Past the gate it is decrypted exactly when its layout has encrypted bytes. Result, buffer and SVP chunks then follow the layout and the escalation. The protection meta is removed iff the buffer had one. |
| CdmiDecryptor.CdmiDecryptorElement.RecordDecrypt | drm/gst/gstaampcdmidecryptor.cpp:843-866 | The bookkeeping follows DecryptStep; the error is posted iff the result is FLOW_ERROR. |
| CdmiDecryptor.GatherCipher | drm/gst/gstaampcdmidecryptor.cpp:785-817 | The first copy loop gathers exactly Gather of the sample, cbData bytes. |
| CdmiDecryptor.GatherEntry | drm/gst/gstaampcdmidecryptor.cpp:796-816 | One turn of the gather loop appends entry i's encrypted range. |
| CdmiDecryptor.ScatterPlain | drm/gst/gstaampcdmidecryptor.cpp:903-934 | The second copy loop leaves the sample as Scatter says. |
| SubtecMp4.Parse32 | gst_subtec/gstsubtecmp4transform.cpp:211-228 | parse32 fails iff offset+4 exceeds the length; the value fits 32 bits. |
| SubtecMp4.Parse32Encoded | gst_subtec/gstsubtecmp4transform.cpp:211-228 | parse32 reads back a big-endian 32-bit size wherever it is written. |
| SubtecMp4.ParseName | gst_subtec/gstsubtecmp4transform.cpp:230-245 | parseName succeeds iff 4 bytes remain. It then appends them as characters; on failure it leaves the string untouched. |
| SubtecMp4.BoxNameIsParsedName | gst_subtec/gstsubtecmp4transform.cpp:230-245 | A box's name is what parseName appends to an empty string. |
| SubtecMp4.ParseNameEncoded | gst_subtec/gstsubtecmp4transform.cpp:230-245 | A written box name reads back. |
| SubtecMp4.NameBytes | gst_subtec/gstsubtecmp4transform.cpp:230-245 | A single-byte name's bytes read back as its characters. |
| SubtecMp4.ContainersExactly | gst_subtec/gstsubtecmp4transform.cpp:247-257 | isContainer holds exactly for moov, trak, mdia, minf, dinf, stbl and mvex. |
| SubtecMp4.IsContainer | gst_subtec/gstsubtecmp4transform.cpp:247-257 | isContainer; ContainersExactly lists the seven names. |
| SubtecMp4.NextOffset | gst_subtec/gstsubtecmp4transform.cpp:326-331 | The corrected step always advances, and enters a container by its 8-byte header. |
| SubtecMp4.NextOffsetAsWritten | gst_subtec/gstsubtecmp4transform.cpp:326-331 | The step as written is size_t arithmetic. |
| SubtecMp4.NextOffsetAsWrittenAgrees | gst_subtec/gstsubtecmp4transform.cpp:326-331 | The written step equals the corrected one except on a size-0 non-container box, where it stays put. |
| SubtecMp4.ZeroSizeBoxSpins | gst_subtec/gstsubtecmp4transform.cpp:326-331 | A size-0 `free` box makes the written walk return to offset 0 forever. The corrected step goes to the end. |
| SubtecMp4.WalkFrom | gst_subtec/gstsubtecmp4transform.cpp:295-335 | A found box has a readable size field equal to its declared size and the name asked for, at or after the start. |
| SubtecMp4.FindBox | gst_subtec/gstsubtecmp4transform.cpp:295-335 | The corrected walk from offset 0 (Findings row 2); FindsLeadingBox, SkipsLeadingBox and EntersLeadingContainer state its steps. |
| SubtecMp4.FindsLeadingBox | gst_subtec/gstsubtecmp4transform.cpp:295-335 | A leading box with the name asked for is found at offset 0 with its declared size. |
| SubtecMp4.SkipsLeadingBox | gst_subtec/gstsubtecmp4transform.cpp:326-331 | A leading non-container box of another name is skipped whole. |
| SubtecMp4.EntersLeadingContainer | gst_subtec/gstsubtecmp4transform.cpp:326-331 | A leading container is entered right after its header. |
| SubtecMp4.FindBoxOffsetAndLength | gst_subtec/gstsubtecmp4transform.cpp:295-335 | Corrected (Findings row 2): The walk finds a box iff FindBox does, returning the end of its header and its declared size. |
| SubtecMp4.CopyEndPassesBox | gst_subtec/gstsubtecmp4transform.cpp:355-360 | The written copy ends 8 bytes past the mdat box. |
| SubtecMp4.MdatCopyOverreads | gst_subtec/gstsubtecmp4transform.cpp:355-360 | For a buffer holding only an mdat box, the written copy reads 8 bytes past the buffer. |
| SubtecMp4.MdatPayload | gst_subtec/gstsubtecmp4transform.cpp:355-360 | The corrected payload is the box body, clamped to the buffer. Size 0 runs to the end. |
| SubtecMp4.MdatOnlyPayload | gst_subtec/gstsubtecmp4transform.cpp:355-360 | The corrected payload of an mdat-only buffer is exactly its body. |
| SubtecMp4.MoveToFront | gst_subtec/gstsubtecmp4transform.cpp:355-360 | The payload is moved to the front; the rest of the buffer is kept. |
| SubtecMp4.TransformIp | gst_subtec/gstsubtecmp4transform.cpp:338-369 | Corrected (Findings rows 2 and 3), using the corrected walk and MdatPayload: An ftyp buffer is dropped. An mdat buffer is cut down to its payload, moved to the front. Any other buffer passes unchanged. |
| SubtecMp4.Mp4TransformCaps | gst_subtec/gstsubtecmp4transform.cpp:157-195 | Sink-side mp4 maps to TTML (carrying the viper format) and VTT to VTT. Src-side TTML maps to mp4. Anything else, including caps with no structure, is copied. |
| SubtecMp4.CapsRoundTrip | gst_subtec/gstsubtecmp4transform.cpp:157-195 | Mapping mp4 caps to the source side and back gives application/mp4. |
| ViperTransform.FindTag | gst_subtec/gstvipertransform.cpp:211-227 | findTag returns the text between the first `tag="` at or after p and the next quote, or ("", npos, 0) without an opener. |
| ViperTransform.FindTagReadsValue | gst_subtec/gstvipertransform.cpp:211-227 | A written `tag="value"` reads back as value, with its position and length. |
| ViperTransform.FindFirstBegin | gst_subtec/gstvipertransform.cpp:248-262 | There is a first begin time iff a `begin="` occurs; it is the converted value of that tag. |
| ViperTransform.HarmonicIffTwoDocuments | gst_subtec/gstvipertransform.cpp:296-304 | is_harmonic_uhd holds iff `<?xml` occurs at least twice. |
| ViperTransform.IsHarmonicUhd | gst_subtec/gstvipertransform.cpp:296-304 | is_harmonic_uhd, including the npos+1 wrap of the second search; HarmonicIffTwoDocuments proves it holds iff two markers occur. |
| ViperTransform.OffsetMs | gst_subtec/gstvipertransform.cpp:346-364 | The offset is first-begin minus pts in ms, as a gint64. |
| ViperTransform.Classify | gst_subtec/gstvipertransform.cpp:307-391 | before_transform's classifier step; ClassifyFollowsTable, ClassifyOffsetCloser, SettledStaysSettled and HarmonicStaysHarmonic state its transitions. |
| ViperTransform.ClassifyFollowsTable | gst_subtec/gstvipertransform.cpp:307-391 | Each buffer moves the classifier only along the source's transitions. Passthrough and LINEAR_OFFSET are final. |
| ViperTransform.ClassifyOffsetCloser | gst_subtec/gstvipertransform.cpp:361-386 | The stored offset is replaced only when it was 0 or the new one is closer to zero. |
| ViperTransform.SettledStaysSettled | gst_subtec/gstvipertransform.cpp:314-324 | Once passthrough or LINEAR_OFFSET, no further buffer changes the classifier. |
| ViperTransform.HarmonicStaysHarmonic | gst_subtec/gstvipertransform.cpp:330-344 | Once HARMONIC_UHD, the stream stays HARMONIC_UHD. |
| ViperTransform.DocsAt | gst_subtec/gstvipertransform.cpp:449-460 | The split from a marker yields at least one document. |
| ViperTransform.DocsAtJoin | gst_subtec/gstvipertransform.cpp:449-460 | The documents concatenate back to the text from the first marker. |
| ViperTransform.MarkersApart | gst_subtec/gstvipertransform.cpp:449-460 | Two `<?xml` markers never overlap. |
| ViperTransform.CutIsSingle | gst_subtec/gstvipertransform.cpp:449-460 | A cut between consecutive markers holds one marker, at its start. |
| ViperTransform.DocsAtSingle | gst_subtec/gstvipertransform.cpp:449-460 | Every document of the split holds exactly one `<?xml`, at its start. |
| ViperTransform.DocsCount | gst_subtec/gstvipertransform.cpp:449-469 | There are no documents iff there is no marker; a harmonic buffer has at least two. |
| ViperTransform.DocsAtAsWritten | gst_subtec/gstvipertransform.cpp:449-460 | The split as written, with substr's second argument used as an end position, still yields a document. |
| ViperTransform.SecondDocumentOverruns | gst_subtec/gstvipertransform.cpp:452 | For three back-to-back documents, the written split's second document swallows the third. The corrected split gives three single documents. |
| ViperTransform.DocsAtStep | gst_subtec/gstvipertransform.cpp:449-460 | One step of the split cuts at the next marker or at the end. |
| ViperTransform.Docs | gst_subtec/gstvipertransform.cpp:449-460 | The corrected split of a buffer (Findings row 4); DocsCount, DocsAtJoin and DocsAtSingle state what it yields. |
| ViperTransform.SplitDocs | gst_subtec/gstvipertransform.cpp:449-460 | The split loop yields exactly Docs. |
| ViperTransform.SplitKeepsText | gst_subtec/gstvipertransform.cpp:449-460 | No text after the first marker is lost by the split. |
| ViperTransform.SegmentDuration | gst_subtec/gstvipertransform.cpp:471-481 | The corrected segment duration tiles the input: count segments fit in its duration. |
| ViperTransform.SixSecondSegmentWraps | gst_subtec/gstvipertransform.cpp:471-481 | A 6 s buffer split in two gives a negative `int` segment duration as written, and a second pts past the buffer. Corrected, it is 3 s. |
| ViperTransform.SegmentDurationAsWritten | gst_subtec/gstvipertransform.cpp:471-481 | The `int` segment duration as written; SixSecondSegmentWraps exhibits the wrap. |
| ViperTransform.PtsAsWritten | gst_subtec/gstvipertransform.cpp:497-498 | The retimed pts as written, with `int` multiplication; SixSecondSegmentWraps exhibits the wrong second pts. |
| ViperTransform.Retimed | gst_subtec/gstvipertransform.cpp:486-511 | The corrected output buffer for document k: its bytes, pts, dts, duration and offset; RetimedTiles and RetimedPtsExact state its timing. |
| ViperTransform.RetimedTiles | gst_subtec/gstvipertransform.cpp:486-511 | Buffer k covers [pts + k·sd, pts + (k+1)·sd), within the input's time span. |
| ViperTransform.RetimedPtsExact | gst_subtec/gstvipertransform.cpp:486-511 | The retimed pts does not wrap when the sum fits 64 bits. |
| ViperTransform.SplitBuffers | gst_subtec/gstvipertransform.cpp:486-511 | One output buffer per document, carrying that document's bytes. |
| ViperTransform.Retime | gst_subtec/gstvipertransform.cpp:486-511 | The retiming loop produces exactly SplitBuffers. |
| ViperTransform.Element.constructor | gst_subtec/gstvipertransform.cpp:127-132 | The element starts UNKNOWN with offset 0, searching for a first begin. |
| ViperTransform.Element.Event | gst_subtec/gstvipertransform.cpp:103-125 | Flush-start and flush-stop reset the type to UNKNOWN and the offset to 0. The parent's answer is returned. |
| ViperTransform.Element.SetCaps | gst_subtec/gstvipertransform.cpp:134-158 | Non-TTML caps enable passthrough; the offset is reset. |
| ViperTransform.Element.BeforeTransform | gst_subtec/gstvipertransform.cpp:307-391 | A mapped buffer moves the classifier as Classify says; an unmapped one changes nothing. |
| ViperTransform.Element.Transform | gst_subtec/gstvipertransform.cpp:393-534 | Corrected (Findings rows 4 and 5), using SplitDocs and SegmentDuration: Harmonic buffers are split and retimed (copied when there is no marker). The linear states stamp the offset. Every other case copies the bytes. |
| SubtecSink.GetTimestampMs | gst_subtec/gstsubtecsink.cpp:385-409 | The later of pts and segment time, in whole ms. A positive offset is added mod 2^64. Without one, a negative pts gives 0. |
| SubtecSink.TimestampNotBeforeSegment | gst_subtec/gstsubtecsink.cpp:385-409 | Without an offset, the timestamp is never before the segment time or the pts, and equals the later one in ms. |
| SubtecSink.TimestampOffsetShifts | gst_subtec/gstsubtecsink.cpp:397-402 | A positive offset shifts the timestamp by exactly its value when nothing wraps. |
| SubtecSink.NegativeOffsetIgnored | gst_subtec/gstsubtecsink.cpp:397-408 | An offset of -1 or below gives the same timestamp as offset 0. |
| SubtecSink.Forwarded | gst_subtec/gstsubtecsink.cpp:470-489 | render copies the mapped bytes unchanged (up to the 32-bit size); an unmappable buffer gives nothing. |
| SubtecSink.DataOffset | gst_subtec/gstsubtecsink.cpp:507-512 | The data packet's offset is the negated buffer offset as gint64, with -1 read as 0. |
| SubtecSink.RenderOutput | gst_subtec/gstsubtecsink.cpp:491-513 | An empty buffer sends nothing. Otherwise the owed timestamp of the segment start comes first, then the bytes. |
| SubtecSink.RenderRun | gst_subtec/gstsubtecsink.cpp:461-516 | A run of renders from one start or flush; TimestampSentOnce, RenderRunForwardsAll and TimestampLeads state what the channel receives. |
| SubtecSink.RenderRunClearsFlag | gst_subtec/gstsubtecsink.cpp:493-505 | The timestamp flag is cleared by the first non-empty buffer and by nothing else. |
| SubtecSink.OutputTimestamps | gst_subtec/gstsubtecsink.cpp:493-505 | One render sends a timestamp iff one is owed and the buffer has bytes. |
| SubtecSink.TimestampSentOnce | gst_subtec/gstsubtecsink.cpp:493-505 | After start or flush-stop, renders send exactly one timestamp if any buffer has bytes, otherwise none. |
| SubtecSink.RenderRunForwardsAll | gst_subtec/gstsubtecsink.cpp:479-513 | Every non-empty buffer reaches the channel unchanged and in order, and nothing else is sent as data. |
| SubtecSink.TimestampLeads | gst_subtec/gstsubtecsink.cpp:493-513 | An owed timestamp is the first packet of the run, before any subtitle bytes. |
| SubtecSink.TimestampsAppend | gst_subtec/gstsubtecsink.cpp:493-505 | Timestamp counts add up over concatenated logs. |
| SubtecSink.PayloadsAppend | gst_subtec/gstsubtecsink.cpp:507-512 | Data payloads concatenate over concatenated logs. |
| SubtecSink.AnyNonEmptyStep | gst_subtec/gstsubtecsink.cpp:491 | A run has a non-empty buffer iff its head or its tail does. |
| SubtecSink.ChannelFor | gst_subtec/gstsubtecsink.cpp:311-320 | text/vtt and application/x-subtitle-vtt give WebVTT, application/ttml+xml gives TTML, and anything else gives none. |
| SubtecSink.ApplyAppend | gst_subtec/gstsubtecsink.cpp:150-199 | The channel's view after two logs is the view after their concatenation. |
| SubtecSink.Apply | gst_subtec/gstsubtecsink.cpp:150-232 | The mute and pause state the control packets leave the channel in; ApplyAppend, PlayRestoresMute and PauseSilences use it. |
| SubtecSink.MutePacket | gst_subtec/gstsubtecsink.cpp:226-230 | The mute setting is carried by a mute or unmute packet. |
| SubtecSink.PlayRestoresMute | gst_subtec/gstsubtecsink.cpp:159-169 | PAUSED→PLAYING resumes the channel and restores the mute setting, whatever it believed before. |
| SubtecSink.PauseSilences | gst_subtec/gstsubtecsink.cpp:183-193 | PLAYING→PAUSED leaves the channel muted and paused. |
| SubtecSink.PauseResumeRoundTrip | gst_subtec/gstsubtecsink.cpp:150-199 | Pausing then playing leaves the channel playing with the property's mute setting. |
| SubtecSink.SetMuteTakesEffect | gst_subtec/gstsubtecsink.cpp:220-232 | Setting the property changes the channel's mute state to it at once. |
| SubtecSink.Sink.constructor | gst_subtec/gstsubtecsink.h:42-45 | A fresh sink has no channel, both properties FALSE, and a timestamp owed. |
| SubtecSink.Sink.SetCaps | gst_subtec/gstsubtecsink.cpp:301-326 | Success iff the caps name has a channel. Then reset-all and a 1920×1080 selection are sent. Unknown caps change nothing. |
| SubtecSink.Sink.Start | gst_subtec/gstsubtecsink.cpp:329-350 | start owes a timestamp and returns the connection's outcome. |
| SubtecSink.Sink.Stop | gst_subtec/gstsubtecsink.cpp:352-365 | stop sends reset-channel then reset-all when there is a channel. |
| SubtecSink.Sink.Event | gst_subtec/gstsubtecsink.cpp:411-459 | Flush-start resets the channel. Flush-stop reselects and owes a timestamp. A segment records its start. EOS is swallowed (TRUE, not chained) iff no-eos. |
| SubtecSink.EventPackets | gst_subtec/gstsubtecsink.cpp:411-429 | The packets a flush-start or flush-stop sends to an existing channel; Sink.Event states it. |
| SubtecSink.Sink.Render | gst_subtec/gstsubtecsink.cpp:461-516 | The log grows by RenderOutput. The flag is cleared by a non-empty buffer. The result is always OK. |
| SubtecSink.Sink.ChangeState | gst_subtec/gstsubtecsink.cpp:150-199 | Resume and the mute setting go before the parent on PAUSED→PLAYING. Mute and pause go after it on PLAYING→PAUSED, unless it failed. |
| SubtecSink.Sink.SetMute | gst_subtec/gstsubtecsink.cpp:220-232 | The mute property is stored and sent to the channel if there is one. |
| SubtecSink.Sink.SetNoEos | gst_subtec/gstsubtecsink.cpp:233-238 | The no-eos property is stored. |
| SubtecSink.Sink.GetProperties | gst_subtec/gstsubtecsink.cpp:255-274 | get_property returns the stored mute and no-eos values. |
| SubtecSink.MuteRoundTrip | gst_subtec/gstsubtecsink.cpp:212-274 | The mute property reads back what was set, and the channel hears of it. |
| AampSrc.WithScheme | gstaampsrc.cpp:98-106 | Overwriting the scheme keeps the length and everything after the first four characters. |
| AampSrc.StoredSchemes | gstaampsrc.cpp:98-106 | aamp:// is stored as http:// and aamps:// as https://. |
| AampSrc.SchemeRoundTrip | gstaampsrc.cpp:64-106 | Writing "aamp" back over the stored form restores the URI, and the stored form itself would be refused. |
| AampSrc.StrDup | gstaampsrc.cpp:104 | g_strdup yields a fresh copy. |
| AampSrc.OverwriteScheme | gstaampsrc.cpp:64-106 | memcpy of four characters rewrites exactly the scheme. |
| AampSrc.Src.constructor | gstaampsrc.cpp:255-261 | A fresh source has a NULL location and no buffer sent. |
| AampSrc.Src.SetLocation | gstaampsrc.cpp:84-106 | A NULL or non-"aamp" URI is refused, leaving the location. Otherwise a fresh copy with "http" in front is stored. |
| AampSrc.Src.GetUri | gstaampsrc.cpp:64-75 | The current location is returned; the stored string's first four characters then become "aamp". |
| AampSrc.Src.GetProperty | gstaampsrc.cpp:301-322 | The location, or "undefined" when it is NULL. |
| AampSrc.Src.Create | gstaampsrc.cpp:176-196 | The first call after READY→PAUSED marks the buffer sent; later calls block first. Every call returns OK with an 8-byte buffer. |
| AampSrc.Src.ChangeState | gstaampsrc.cpp:356-376 | READY→PAUSED forgets the first buffer. PAUSED→READY wakes a blocked create. The parent's answer is returned. |
| AampSrc.Src.Query | gstaampsrc.cpp:386-409 | The URI query answers the stored location and the latency query (live, 0, 0). Others go to the base class. |
| AampSrc.ReadBackTwice | gstaampsrc.cpp:64-106 | After setting an aamp URI, the first read gives the http form and the second the URI as set. |

## Left out

- Floating point is left out: the `double` pts/dts and `spts` arithmetic of SendHelper (gstaamp.cpp:376-400), rate comparisons, and `convertTime`'s float seconds and `sscanf` (gst_subtec/gstvipertransform.cpp:186-201). Times are integer nanoseconds. The TTML time conversion is a parameter `toMs`.
- Thread interleavings are left out. Condition-variable waits are preconditions or explicit wake-up descriptions, and signals are counters or flags.
- External collaborators are left out: DRM sessions, the session manager, the player instance, the profiler, downstream pads and `SubtecChannel` I/O. Each is a parameter or an appended log.
- GStreamer plumbing is left out: pad and caps construction, `gst_caps_intersect*` with the filter caps, class and plugin registration, `finalize`/`dispose`, and query forwarding to the base classes.
- The OpenCDM-adapter build of the decryptor's transform_ip (drm/gst/gstaampcdmidecryptor.cpp:301-545) and the `USE_SAGE_SVP && USE_OPENCDM` copies (`Rpc_Secbuf_Info`) are left out. The rest of transform_ip follows the build without the OpenCDM adapter.
- CdmiDecryptor.SvpChunks: the chunk list, and the `svp` result of DecryptWhole, DecryptSubsamples and TransformIp, follow the `USE_SAGE_SVP` branch of gst_add_svp_meta_data (drm/gst/gstaampcdmidecryptor.cpp:549-596). Without `USE_SAGE_SVP` that function only prints a message (598-600) and attaches nothing.
- AampStreamer.Aamp.AfterParent: gst_aamp_configured waits only while the state is TUNING (gstaamp.cpp:1190-1193), and it blocks until a signal. The model takes what the player core did by then as the `progress` parameter and applies it whatever the state. It does not model the blocking itself, so a video-only configure, which as written never signals, appears only as the wake-up that ends the wait.
- CdmiDecryptor.CdmiDecryptorElement.TransformIp: the NULL-buffer exit (drm/gst/gstaampcdmidecryptor.cpp:639-644) is left out, because the buffer is an array and never NULL.
- `find_offset_ms_from_pts` (gst_subtec/gstvipertransform.cpp:273-288) is left out: nothing calls it.
- `m_search_first_begin` is set but never read (gst_subtec/gstvipertransform.cpp). The model keeps the flag but gives it no effect.
- ViperTransform.Abs: `abs` of the most negative gint64 is undefined in C++. The model returns the mathematical absolute value.
- SubtecSink.DataOffset: negating the most negative gint64 offset is undefined in C++. The model wraps it to itself.
- CdmiDecryptor.CdmiDecryptorElement.SinkEventProtection: `g_str_equal` compares the event's system id with `selectedProtection` (drm/gst/gstaampcdmidecryptor.cpp:1009). Before transform_caps has chosen a system that field is NULL and the call crashes. The model requires a selected system instead of modelling the crash, and so do KeyGate and TransformIp when their wait ends by a protection event.
- SubtecMp4.MdatPayload: the source copies and keeps the declared size, header included, from the end of the header. The corrected payload departs from that beyond Findings row 3 in three cases. For a declared size of 1 to 7, the source keeps that many bytes and the model keeps none. For size 0, the source empties the buffer and the model reads to the end of the buffer (section 4.2 of ISO/IEC 14496-12, as in Findings row 2). For a box that runs past the buffer, the model clamps the payload to the buffer.
- SubtecSink.Sink.Render: the subtitle channel is dereferenced without a check. The model requires a channel when the buffer has bytes instead of modelling the crash.
- The `subtec-socket` property and the choice of socket in `start` are left out: the connection's outcome is a parameter.
- SubtecMp4.NextOffset: the size==1 (64-bit largesize) convention of section 4.2 of ISO/IEC 14496-12 is not honoured, because the source does not honour it. The corrected step honours only size 0.
- SubtecMp4.MoveToFront: the source moves with `memcpy` over possibly overlapping ranges. The model copies forward, which is what the intended `memmove` does for a move toward the front.
- AampSrc.Src.SetLocation: the source compares four bytes with `memcmp`. A C string shorter than four characters stops at its NUL, so the model refuses any URI shorter than four characters.
- AampSrc.Src.Create: the blocking wait is an output flag `waited`. The buffer's contents (uninitialised) are not modelled, only its size.
- `gst_aampsrc_send_event` (seek forwarding to the peer) and the URI handler's `get_protocols`/`get_type` are constants or plumbing, and are left out.

## Findings

| source | as written | input that shows it | evidently intended | confidence | as-written member | corrected member |
|---|---|---|---|---|---|---|
| drm/gst/gstaampcdmidecryptor.cpp:796-816 | The gather loop copies each entry's clear and cipher counts with no check against the mapped size. | One entry (clear 0, cipher 16) for an 8-byte sample: the loop reads 8 bytes past the buffer. | Entries spanning more than the sample are refused. | high, not executed | CdmiDecryptor.UncheckedGatherOverruns | CdmiDecryptor.SampleLayout |
| gst_subtec/gstsubtecmp4transform.cpp:326-331 | A box whose size field is 0 and which is not a container advances the offset by 0. | The 8-byte buffer `00 00 00 00 'f' 'r' 'e' 'e'`: the walk stays at offset 0 forever. | A size-0 box extends to the end of the buffer, as section 4.2 of ISO/IEC 14496-12 defines, so the walk ends. | high, not executed | SubtecMp4.ZeroSizeBoxSpins | SubtecMp4.FindBoxOffsetAndLength |
| gst_subtec/gstsubtecmp4transform.cpp:355-360 | The mdat payload copy starts after the 8-byte header but copies the box's full declared size, header included. | A buffer holding only an mdat box of n payload bytes: the copy reads 8 bytes past the buffer. | Copy the box size minus its header. | high, not executed | SubtecMp4.MdatCopyOverreads | SubtecMp4.MdatPayload |
| gst_subtec/gstvipertransform.cpp:452 | `substr(start_pos, end_pos)` passes the next marker's position as a length. | Three back-to-back `<?xml` documents: the second document also holds the third. | `substr(start_pos, end_pos - start_pos)`. | high, not executed | ViperTransform.SecondDocumentOverruns | ViperTransform.SplitDocs |
| gst_subtec/gstvipertransform.cpp:471-481 | The nanosecond segment duration is stored in an `int`. | A 6 s buffer with two documents: 3·10^9 ns wraps negative, and the second buffer's pts is past the input. | A 64-bit `GstClockTime` segment duration. | high, not executed | ViperTransform.SixSecondSegmentWraps | ViperTransform.SegmentDuration |
| gstaamp.cpp:856-948 | The CONFIGURED test checks `caps`, which was reassigned to the audio caps. | A video-only stream: no audio caps, so the state stays TUNING and the configure does not end the NULL_TO_READY wait (1190-1197). The transition then blocks, and fails only on a spurious wake-up. | CONFIGURED once any pad was created. | medium, not executed | AampStreamer.VideoOnlyNeverConfigured | AampStreamer.ConfiguredState |
