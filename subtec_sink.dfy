/** The subtitle sink (gst_subtec/gstsubtecsink.cpp): the last element of
    the subtitle branch.  It hands every rendered buffer to a subtitle
    channel, announces the playback position once after each start or
    flush with a timestamp packet, and mirrors state changes and the mute
    property as control packets.  The channel itself is foreign: every
    call on it is an entry appended to a packet log. */
module SubtecSink {
  import opened Common

  /** A guint64 / GstClockTime value. */
  type U64 = x: int | 0 <= x < TWO_POW_64

  /** SubtecChannel::ChannelType: the two subtitle formats a channel speaks. */
  datatype ChannelType = WebVtt | Ttml

  /** One call made on the subtitle channel. */
  datatype Packet =
    | ResetAll
    | ResetChannel
    | Selection(width: nat, height: nat)
    | Timestamp(ms: U64)
    | Data(bytes: seq<byte>, offset: int)
    | Mute
    | Unmute
    | Pause
    | Resume

  function Max(a: U64, b: U64): U64 { if a < b then b else a }

  // ---------------------------------------------------------------------
  // get_timestamp_ms
  // ---------------------------------------------------------------------

  /** get_timestamp_ms: the later of `pts` and the segment time, in whole
      milliseconds (unsigned division).  A positive (as gint64) offset is
      added with guint64 wrap-around; without one, a `pts` that is negative
      as gint64 (GST_CLOCK_TIME_NONE from a debugging source) gives 0. */
  function GetTimestampMs(pts: U64, segmentTime: U64, offset: U64): (r: U64)
    ensures AsI64(offset) <= 0 && AsI64(pts) < 0 ==> r == 0
    ensures AsI64(offset) <= 0 && AsI64(pts) >= 0 ==>
              r * GST_MSECOND <= Max(pts, segmentTime) < (r + 1) * GST_MSECOND
    ensures AsI64(offset) > 0 ==> (r - offset - Max(pts, segmentTime) / GST_MSECOND) % TWO_POW_64 == 0
  {
    DivBounds(Max(pts, segmentTime), GST_MSECOND);
    var ms: U64 := Max(pts, segmentTime) / GST_MSECOND;
    if AsI64(offset) > 0 then Wrap64(ms + offset)
    else if AsI64(pts) < 0 then 0
    else ms
  }

  /** Without an offset the timestamp never lies before the segment time
      nor before `pts`: a seek into the middle of a segment announces the
      segment time, otherwise the buffer time. */
  lemma TimestampNotBeforeSegment(pts: U64, segmentTime: U64)
    requires AsI64(pts) >= 0
    ensures GetTimestampMs(pts, segmentTime, 0) >= pts / GST_MSECOND
    ensures GetTimestampMs(pts, segmentTime, 0) >= segmentTime / GST_MSECOND
    ensures segmentTime <= pts ==> GetTimestampMs(pts, segmentTime, 0) == pts / GST_MSECOND
    ensures pts < segmentTime ==> GetTimestampMs(pts, segmentTime, 0) == segmentTime / GST_MSECOND
  {
    DivBounds(pts, GST_MSECOND);
    DivBounds(segmentTime, GST_MSECOND);
  }

  /** A positive offset shifts the timestamp by exactly that many
      milliseconds, as long as nothing wraps; a negative or -1 offset means
      "no offset". */
  lemma TimestampOffsetShifts(pts: U64, segmentTime: U64, offset: U64)
    requires AsI64(pts) >= 0
    requires 0 < offset && Max(pts, segmentTime) / GST_MSECOND + offset < TWO_POW_64 / 2
    ensures GetTimestampMs(pts, segmentTime, offset) == GetTimestampMs(pts, segmentTime, 0) + offset
  {
  }

  /** The "no offset" values all agree with offset 0. */
  lemma NegativeOffsetIgnored(pts: U64, segmentTime: U64, offset: U64)
    requires AsI64(offset) <= 0
    ensures GetTimestampMs(pts, segmentTime, offset) == GetTimestampMs(pts, segmentTime, 0)
  {
  }

  // ---------------------------------------------------------------------
  // render
  // ---------------------------------------------------------------------

  /** A buffer handed to render: its bytes, or None when it cannot be
      mapped for reading, and GST_BUFFER_OFFSET. */
  datatype Buffer = Buffer(data: Option<seq<byte>>, offset: U64)

  /** The bytes render copies out of a buffer.  The copy loop runs to the
      mapped size narrowed to 32 bits. */
  function Forwarded(data: Option<seq<byte>>): (r: seq<byte>)
    ensures data.None? ==> r == []
    ensures data.Some? ==> r <= data.value && |r| < TWO_POW_32
    ensures data.Some? && |data.value| < TWO_POW_32 ==> r == data.value
  {
    match data
    case None => []
    case Some(bytes) => bytes[..|bytes| % TWO_POW_32]
  }

  /** The offset sent with a data packet: the buffer offset as gint64,
      with -1 (GST_BUFFER_OFFSET_NONE) read as 0, negated in 64 bits. */
  function DataOffset(offset: U64): (r: int)
    ensures IsI64(r)
    ensures offset == CLOCK_TIME_NONE ==> r == 0
    ensures offset != CLOCK_TIME_NONE && AsI64(offset) != -TWO_POW_64 / 2 ==> r == -AsI64(offset)
    ensures offset < TWO_POW_64 / 2 ==> r + offset == 0
  {
    var o := AsI64(offset);
    var o' := if o == -1 then 0 else o;
    AsI64(Wrap64(0 - o'))
  }

  /** What render sends for one buffer: nothing for an empty or unmappable
      buffer; otherwise, when a timestamp is owed, the timestamp of the
      segment start, then the bytes. */
  function RenderOutput(sendTs: bool, segmentStart: U64, segmentTime: U64, b: Buffer): (r: seq<Packet>)
    ensures r == [] <==> Forwarded(b.data) == []
    ensures r != [] ==> r[|r| - 1] == Data(Forwarded(b.data), DataOffset(b.offset))
    ensures r != [] ==> (|r| == 2 <==> sendTs) && |r| <= 2
    ensures r != [] && sendTs ==> r[0] == Timestamp(GetTimestampMs(segmentStart, segmentTime, 0))
  {
    var bytes := Forwarded(b.data);
    if bytes == [] then []
    else (if sendTs then [Timestamp(GetTimestampMs(segmentStart, segmentTime, 0))] else [])
         + [Data(bytes, DataOffset(b.offset))]
  }

  /** Whether the timestamp is still owed after rendering `b`. */
  function StillOwed(sendTs: bool, b: Buffer): bool
  {
    sendTs && Forwarded(b.data) == []
  }

  /** A run of renders with no event in between: whether a timestamp is
      still owed at the end, and every packet sent, in order. */
  function RenderRun(sendTs: bool, segmentStart: U64, segmentTime: U64, bufs: seq<Buffer>): (bool, seq<Packet>)
    decreases |bufs|
  {
    if bufs == [] then (sendTs, [])
    else
      var rest := RenderRun(StillOwed(sendTs, bufs[0]), segmentStart, segmentTime, bufs[1..]);
      (rest.0, RenderOutput(sendTs, segmentStart, segmentTime, bufs[0]) + rest.1)
  }

  predicate AnyNonEmpty(bufs: seq<Buffer>)
  {
    exists i :: 0 <= i < |bufs| && Forwarded(bufs[i].data) != []
  }

  /** How many timestamp packets a log holds. */
  function Timestamps(ps: seq<Packet>): nat
    decreases |ps|
  {
    if ps == [] then 0 else (if ps[0].Timestamp? then 1 else 0) + Timestamps(ps[1..])
  }

  /** The payloads of a log's data packets, in order. */
  function Payloads(ps: seq<Packet>): seq<seq<byte>>
    decreases |ps|
  {
    if ps == [] then [] else (if ps[0].Data? then [ps[0].bytes] else []) + Payloads(ps[1..])
  }

  /** The bytes of the non-empty buffers of a run, in order. */
  function NonEmptyPayloads(bufs: seq<Buffer>): seq<seq<byte>>
    decreases |bufs|
  {
    if bufs == [] then []
    else
      var bytes := Forwarded(bufs[0].data);
      (if bytes == [] then [] else [bytes]) + NonEmptyPayloads(bufs[1..])
  }

  lemma {:induction false} TimestampsAppend(a: seq<Packet>, b: seq<Packet>)
    ensures Timestamps(a + b) == Timestamps(a) + Timestamps(b)
    decreases |a|
  {
    if a == [] {
      assert a + b == b;
    } else {
      assert (a + b)[0] == a[0] && (a + b)[1..] == a[1..] + b;
      TimestampsAppend(a[1..], b);
    }
  }

  lemma {:induction false} PayloadsAppend(a: seq<Packet>, b: seq<Packet>)
    ensures Payloads(a + b) == Payloads(a) + Payloads(b)
    decreases |a|
  {
    if a == [] {
      assert a + b == b;
    } else {
      assert (a + b)[0] == a[0] && (a + b)[1..] == a[1..] + b;
      PayloadsAppend(a[1..], b);
    }
  }

  /** A run has a non-empty buffer iff its first buffer is one or the
      rest of the run has one. */
  lemma AnyNonEmptyStep(bufs: seq<Buffer>)
    requires bufs != []
    ensures AnyNonEmpty(bufs) <==> Forwarded(bufs[0].data) != [] || AnyNonEmpty(bufs[1..])
  {
    if AnyNonEmpty(bufs[1..]) {
      var i :| 0 <= i < |bufs[1..]| && Forwarded(bufs[1..][i].data) != [];
      assert Forwarded(bufs[i + 1].data) != [];
    }
    if AnyNonEmpty(bufs) && Forwarded(bufs[0].data) == [] {
      var i :| 0 <= i < |bufs| && Forwarded(bufs[i].data) != [];
      assert Forwarded(bufs[1..][i - 1].data) != [];
    }
  }

  /** The flag is cleared by the first non-empty buffer and by nothing else. */
  lemma {:induction false} RenderRunClearsFlag(sendTs: bool, segmentStart: U64, segmentTime: U64, bufs: seq<Buffer>)
    ensures RenderRun(sendTs, segmentStart, segmentTime, bufs).0 == (sendTs && !AnyNonEmpty(bufs))
    decreases |bufs|
  {
    if bufs != [] {
      RenderRunClearsFlag(StillOwed(sendTs, bufs[0]), segmentStart, segmentTime, bufs[1..]);
      AnyNonEmptyStep(bufs);
    }
  }

  /** One render sends a timestamp iff one is owed and the buffer has bytes. */
  lemma OutputTimestamps(sendTs: bool, segmentStart: U64, segmentTime: U64, b: Buffer)
    ensures Timestamps(RenderOutput(sendTs, segmentStart, segmentTime, b))
            == (if sendTs && Forwarded(b.data) != [] then 1 else 0)
  {
    var out := RenderOutput(sendTs, segmentStart, segmentTime, b);
    if out != [] {
      var ts := if sendTs then [Timestamp(GetTimestampMs(segmentStart, segmentTime, 0))] else [];
      var data := [Data(Forwarded(b.data), DataOffset(b.offset))];
      assert out == ts + data;
      TimestampsAppend(ts, data);
      assert data[1..] == [] && Timestamps(data) == 0;
      assert ts != [] ==> ts[1..] == [];
    }
  }

  /** After a start or flush-stop, a run of renders sends exactly one
      timestamp if any buffer carries bytes, and none otherwise; a run that
      owes none sends none. */
  lemma {:induction false} TimestampSentOnce(sendTs: bool, segmentStart: U64, segmentTime: U64, bufs: seq<Buffer>)
    ensures Timestamps(RenderRun(sendTs, segmentStart, segmentTime, bufs).1)
            == (if sendTs && AnyNonEmpty(bufs) then 1 else 0)
    decreases |bufs|
  {
    if bufs != [] {
      var next := StillOwed(sendTs, bufs[0]);
      TimestampSentOnce(next, segmentStart, segmentTime, bufs[1..]);
      OutputTimestamps(sendTs, segmentStart, segmentTime, bufs[0]);
      TimestampsAppend(RenderOutput(sendTs, segmentStart, segmentTime, bufs[0]),
                       RenderRun(next, segmentStart, segmentTime, bufs[1..]).1);
      AnyNonEmptyStep(bufs);
    }
  }

  /** Every non-empty buffer reaches the channel, unchanged and in order,
      and nothing else is sent as data. */
  lemma {:induction false} RenderRunForwardsAll(sendTs: bool, segmentStart: U64, segmentTime: U64, bufs: seq<Buffer>)
    ensures Payloads(RenderRun(sendTs, segmentStart, segmentTime, bufs).1) == NonEmptyPayloads(bufs)
    decreases |bufs|
  {
    if bufs != [] {
      var out := RenderOutput(sendTs, segmentStart, segmentTime, bufs[0]);
      var next := StillOwed(sendTs, bufs[0]);
      RenderRunForwardsAll(next, segmentStart, segmentTime, bufs[1..]);
      PayloadsAppend(out, RenderRun(next, segmentStart, segmentTime, bufs[1..]).1);
      if out != [] {
        var ts := if sendTs then [Timestamp(GetTimestampMs(segmentStart, segmentTime, 0))] else [];
        var data := [Data(Forwarded(bufs[0].data), DataOffset(bufs[0].offset))];
        assert out == ts + data;
        PayloadsAppend(ts, data);
        assert Payloads(data) == [Forwarded(bufs[0].data)];
      }
    }
  }

  /** When a timestamp is owed and some buffer carries bytes, the timestamp
      is the first packet of the run: the channel learns the position
      before it sees any subtitle. */
  lemma {:induction false} TimestampLeads(sendTs: bool, segmentStart: U64, segmentTime: U64, bufs: seq<Buffer>)
    requires sendTs && AnyNonEmpty(bufs)
    ensures RenderRun(sendTs, segmentStart, segmentTime, bufs).1 != []
    ensures RenderRun(sendTs, segmentStart, segmentTime, bufs).1[0]
            == Timestamp(GetTimestampMs(segmentStart, segmentTime, 0))
    decreases |bufs|
  {
    var out := RenderOutput(sendTs, segmentStart, segmentTime, bufs[0]);
    if out == [] {
      var i :| 0 <= i < |bufs| && Forwarded(bufs[i].data) != [];
      assert i != 0;
      assert Forwarded(bufs[1..][i - 1].data) != [];
      TimestampLeads(sendTs, segmentStart, segmentTime, bufs[1..]);
    }
  }

  // ---------------------------------------------------------------------
  // set_caps
  // ---------------------------------------------------------------------

  /** The channel set_caps creates for a caps name, if any. */
  function ChannelFor(capsName: string): (r: Option<ChannelType>)
    ensures r == Some(WebVtt) <==> capsName == "text/vtt" || capsName == "application/x-subtitle-vtt"
    ensures r == Some(Ttml) <==> capsName == "application/ttml+xml"
    ensures r == None <==> capsName !in {"text/vtt", "application/x-subtitle-vtt", "application/ttml+xml"}
  {
    if capsName == "text/vtt" || capsName == "application/x-subtitle-vtt" then Some(WebVtt)
    else if capsName == "application/ttml+xml" then Some(Ttml)
    else None
  }

  // ---------------------------------------------------------------------
  // The channel's view of play state
  // ---------------------------------------------------------------------

  /** What the control packets sent so far tell the channel. */
  datatype ChannelView = ChannelView(muted: bool, paused: bool)

  /** The view after the channel has received `ps`. */
  function Apply(v: ChannelView, ps: seq<Packet>): ChannelView
    decreases |ps|
  {
    if ps == [] then v
    else
      var v' := match ps[0]
        case Mute => v.(muted := true)
        case Unmute => v.(muted := false)
        case Pause => v.(paused := true)
        case Resume => v.(paused := false)
        case _ => v;
      Apply(v', ps[1..])
  }

  lemma {:induction false} ApplyAppend(v: ChannelView, a: seq<Packet>, b: seq<Packet>)
    ensures Apply(v, a + b) == Apply(Apply(v, a), b)
    decreases |a|
  {
    if a == [] {
      assert a + b == b;
    } else {
      assert (a + b)[0] == a[0] && (a + b)[1..] == a[1..] + b;
      var v' := match a[0]
        case Mute => v.(muted := true)
        case Unmute => v.(muted := false)
        case Pause => v.(paused := true)
        case Resume => v.(paused := false)
        case _ => v;
      ApplyAppend(v', a[1..], b);
    }
  }

  /** The packet that carries a mute setting. */
  function MutePacket(mute: bool): (r: Packet)
    ensures r.Mute? || r.Unmute?
  {
    if mute then Mute else Unmute
  }

  /** What change_state sends before chaining to the parent class. */
  function BeforeParent(t: Transition, hasChannel: bool, mute: bool): seq<Packet>
  {
    if t == PausedToPlaying && hasChannel then [Resume, MutePacket(mute)] else []
  }

  /** What change_state sends after the parent class succeeded. */
  function AfterParent(t: Transition, hasChannel: bool): seq<Packet>
  {
    if t == PlayingToPaused && hasChannel then [Mute, Pause] else []
  }

  /** Going to PLAYING resumes the channel and restores the mute setting,
      whatever the channel believed before. */
  lemma PlayRestoresMute(v: ChannelView, mute: bool)
    ensures Apply(v, BeforeParent(PausedToPlaying, true, mute)) == ChannelView(mute, false)
  {
    var ps := BeforeParent(PausedToPlaying, true, mute);
    assert ps == [Resume, MutePacket(mute)];
    assert ps[1..] == [MutePacket(mute)] && ps[1..][1..] == [];
    var resumed := v.(paused := false);
    assert Apply(v, ps) == Apply(resumed, ps[1..]);
    assert Apply(resumed, ps[1..]) == Apply(resumed.(muted := mute), []);
  }

  /** Leaving PLAYING silences and pauses the channel. */
  lemma PauseSilences(v: ChannelView)
    ensures Apply(v, AfterParent(PlayingToPaused, true)) == ChannelView(true, true)
  {
    var ps := AfterParent(PlayingToPaused, true);
    assert ps[1..] == [Pause] && ps[1..][1..] == [];
  }

  /** A pause followed by a resume leaves the channel playing with the
      property's mute setting, so pausing never loses it. */
  lemma PauseResumeRoundTrip(v: ChannelView, mute: bool)
    ensures Apply(v, AfterParent(PlayingToPaused, true) + BeforeParent(PausedToPlaying, true, mute))
            == ChannelView(mute, false)
  {
    ApplyAppend(v, AfterParent(PlayingToPaused, true), BeforeParent(PausedToPlaying, true, mute));
    PlayRestoresMute(Apply(v, AfterParent(PlayingToPaused, true)), mute);
  }

  /** Setting the mute property reaches the channel at once. */
  lemma SetMuteTakesEffect(v: ChannelView, mute: bool)
    ensures Apply(v, [MutePacket(mute)]) == v.(muted := mute)
  {
    assert [MutePacket(mute)][1..] == [];
  }

  // ---------------------------------------------------------------------
  // The element
  // ---------------------------------------------------------------------

  /** The events the sink reacts to; the rest only go to the parent. */
  datatype SinkEvent = FlushStart | FlushStop | SegmentEvent(start: U64) | Eos | OtherEvent

  /** What the event handler sends to the channel. */
  function EventPackets(e: SinkEvent, hasChannel: bool): seq<Packet>
  {
    if !hasChannel then []
    else match e
      case FlushStart => [ResetChannel]
      case FlushStop => [Selection(1920, 1080)]
      case _ => []
  }

  /** GstSubtecSink: the channel (None until caps arrive), the properties,
      the pending-timestamp flag, the last segment start, and every packet
      sent to the channel. */
  class Sink {
    var channel: Option<ChannelType>
    var mute: bool
    var noEos: bool
    var sendTimestamp: bool
    var segmentStart: U64
    var log: seq<Packet>

    /** A fresh element: no channel, properties FALSE, a timestamp owed,
        as the header's default member initialisers say.  The instance is
        zero-filled and those initialisers never run, so the timestamp flag
        really starts FALSE; start sets it before any buffer is rendered,
        so nothing observable differs. */
    constructor ()
      ensures channel == None && !mute && !noEos && sendTimestamp && segmentStart == 0 && log == []
    {
      channel := None;
      mute := false;
      noEos := false;
      sendTimestamp := true;
      segmentStart := 0;
      log := [];
    }

    /** set_caps: pick the channel for the caps name, reset it and select
        a 1920x1080 display; unknown caps fail and change nothing. */
    method SetCaps(capsName: string) returns (ok: bool)
      modifies this
      ensures ok == ChannelFor(capsName).Some?
      ensures ok ==> channel == ChannelFor(capsName) && log == old(log) + [ResetAll, Selection(1920, 1080)]
      ensures !ok ==> channel == old(channel) && log == old(log)
      ensures mute == old(mute) && noEos == old(noEos)
      ensures sendTimestamp == old(sendTimestamp) && segmentStart == old(segmentStart)
    {
      if capsName == "text/vtt" || capsName == "application/x-subtitle-vtt" {
        channel := Some(WebVtt);
      } else if capsName == "application/ttml+xml" {
        channel := Some(Ttml);
      } else {
        return false;
      }
      log := log + [ResetAll];
      log := log + [Selection(1920, 1080)];
      ok := true;
    }

    /** start: open the channel's connection (whose outcome is
        `commsOk`) and owe a timestamp either way. */
    method Start(commsOk: bool) returns (ok: bool)
      modifies this
      ensures ok == commsOk && sendTimestamp
      ensures channel == old(channel) && mute == old(mute) && noEos == old(noEos)
      ensures segmentStart == old(segmentStart) && log == old(log)
    {
      sendTimestamp := true;
      ok := commsOk;
    }

    /** stop: reset the channel, then everything. */
    method Stop() returns (ok: bool)
      modifies this
      ensures ok
      ensures log == old(log) + (if channel.Some? then [ResetChannel, ResetAll] else [])
      ensures channel == old(channel) && mute == old(mute) && noEos == old(noEos)
      ensures sendTimestamp == old(sendTimestamp) && segmentStart == old(segmentStart)
    {
      if channel.Some? {
        log := log + [ResetChannel, ResetAll];
      }
      ok := true;
    }

    /** The event handler.  A flush-start resets the channel; a flush-stop
        reselects the display and owes a timestamp; a segment records its
        start; with no-eos set an EOS is answered TRUE without reaching the
        parent class.  Every other event goes on to the parent, whose answer
        (`parentResult`) is returned. */
    method Event(e: SinkEvent, parentResult: bool) returns (handled: bool, chained: bool)
      modifies this
      ensures chained <==> !(e.Eos? && noEos)
      ensures handled == (if chained then parentResult else true)
      ensures log == old(log) + EventPackets(e, channel.Some?)
      ensures sendTimestamp == (old(sendTimestamp) || e.FlushStop?)
      ensures segmentStart == (if e.SegmentEvent? then e.start else old(segmentStart))
      ensures channel == old(channel) && mute == old(mute) && noEos == old(noEos)
    {
      match e {
        case FlushStart =>
          if channel.Some? {
            log := log + [ResetChannel];
          }
        case FlushStop =>
          if channel.Some? {
            log := log + [Selection(1920, 1080)];
          }
          sendTimestamp := true;
        case SegmentEvent(start) =>
          segmentStart := start;
        case Eos =>
          if noEos {
            return true, false;
          }
        case OtherEvent =>
      }
      handled, chained := parentResult, true;
    }

    /** render: copy the buffer's bytes out; if there are any, send the
        owed timestamp (of the segment start, against the base class's
        segment time) and clear the flag, then send the bytes.  The channel
        is used without a check, so a non-empty buffer needs one. */
    method Render(b: Buffer, segmentTime: U64) returns (ok: bool)
      requires Forwarded(b.data) != [] ==> channel.Some?
      modifies this
      ensures ok
      ensures log == old(log) + RenderOutput(old(sendTimestamp), segmentStart, segmentTime, b)
      ensures sendTimestamp == StillOwed(old(sendTimestamp), b)
      ensures channel == old(channel) && mute == old(mute) && noEos == old(noEos)
      ensures segmentStart == old(segmentStart)
    {
      var dataBuffer: seq<byte> := [];
      if b.data.Some? {
        var inputSize := |b.data.value| % TWO_POW_32;
        for i := 0 to inputSize
          invariant dataBuffer == b.data.value[..i]
        {
          dataBuffer := dataBuffer + [b.data.value[i]];
        }
      }
      assert dataBuffer == Forwarded(b.data);
      if dataBuffer != [] {
        if sendTimestamp {
          var timestampMs := GetTimestampMs(segmentStart, segmentTime, 0);
          log := log + [Timestamp(timestampMs)];
          sendTimestamp := false;
        }
        var offset := AsI64(b.offset);
        if offset == -1 {
          offset := 0;
        }
        log := log + [Data(dataBuffer, AsI64(Wrap64(0 - offset)))];
      }
      ok := true;
    }

    /** change_state: entering PLAYING resumes the channel and restores
        the mute setting before the parent class runs; leaving PLAYING
        mutes and pauses it once the parent class has succeeded.  The
        parent's answer is returned. */
    method ChangeState(t: Transition, parentResult: StateChangeReturn) returns (ret: StateChangeReturn)
      modifies this
      ensures ret == parentResult
      ensures log == old(log) + BeforeParent(t, channel.Some?, mute)
                     + (if parentResult == Failure then [] else AfterParent(t, channel.Some?))
      ensures channel == old(channel) && mute == old(mute) && noEos == old(noEos)
      ensures sendTimestamp == old(sendTimestamp) && segmentStart == old(segmentStart)
    {
      if t == PausedToPlaying && channel.Some? {
        log := log + [Resume];
        log := log + [if mute then Mute else Unmute];
      }
      ret := parentResult;
      if ret == Failure {
        return;
      }
      if t == PlayingToPaused && channel.Some? {
        log := log + [Mute];
        log := log + [Pause];
      }
    }

    /** The mute property: stored, and sent to the channel if there is one. */
    method SetMute(m: bool)
      modifies this
      ensures mute == m
      ensures log == old(log) + (if channel.Some? then [MutePacket(m)] else [])
      ensures channel == old(channel) && noEos == old(noEos)
      ensures sendTimestamp == old(sendTimestamp) && segmentStart == old(segmentStart)
    {
      mute := m;
      if channel.Some? {
        log := log + [MutePacket(m)];
      }
    }

    /** The no-eos property: stored only. */
    method SetNoEos(b: bool)
      modifies this
      ensures noEos == b
      ensures channel == old(channel) && mute == old(mute) && log == old(log)
      ensures sendTimestamp == old(sendTimestamp) && segmentStart == old(segmentStart)
    {
      noEos := b;
    }

    /** get_property: the stored mute and no-eos values. */
    method GetProperties() returns (m: bool, n: bool)
      ensures m == mute && n == noEos
    {
      m, n := mute, noEos;
    }
  }

  /** The mute property reads back what was last set, and the channel hears
      of it at once. */
  method MuteRoundTrip(sink: Sink, m: bool) returns (read: bool)
    requires sink.channel.Some?
    modifies sink
    ensures read == m
    ensures Apply(ChannelView(false, false), sink.log) == Apply(ChannelView(false, false), old(sink.log)).(muted := m)
  {
    sink.SetMute(m);
    var n;
    read, n := sink.GetProperties();
    ApplyAppend(ChannelView(false, false), old(sink.log), [MutePacket(m)]);
    SetMuteTakesEffect(Apply(ChannelView(false, false), old(sink.log)), m);
  }
}
