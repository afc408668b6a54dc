/** The `aamp` GStreamer element (gstaamp.cpp): the player core hands
    elementary-stream buffers to GstAampStreamer, which turns them into
    GStreamer buffers and events on a video and an audio source pad.  For a
    muxed stream each pad has a bounded queue drained by a pad task; for a
    demuxed stream items are pushed straight to the pad.  The element also
    owns the tune/ready handshake with the GStreamer state machine and the
    handling of seek events. */
module AampStreamer {
  import opened Common

  /** MAX_NUM_BUFFERS_IN_QUEUE: a producer waits while a queue is longer. */
  const MAX_NUM_BUFFERS_IN_QUEUE: nat := 100
  const VIDEO: nat := 0
  const AUDIO: nat := 1
  const STREAM_COUNT: nat := 2
  /** AAMP_NORMAL_PLAY_RATE */
  const NORMAL_PLAY_RATE: real := 1.0

  /** GstAampState, in declaration order. */
  datatype AampState =
    | StateNone | StateTuning | StateConfigured | StateReady | StateShuttingDown | StateError

  /** The enum value, which the source compares with `<` and `>=`. */
  function Rank(s: AampState): nat
  {
    match s
    case StateNone => 0
    case StateTuning => 1
    case StateConfigured => 2
    case StateReady => 3
    case StateShuttingDown => 4
    case StateError => 5
  }

  /** The events the element produces on its source pads. */
  datatype Event =
    | StreamStart
    | Caps
    | FlushStart
    | FlushStop(resetTime: bool)
    | Segment(start: nat, appliedRate: real)
    | Eos

  /** A GstMiniObject travelling through a stream: a buffer with its
      timestamps (nanoseconds) and DISCONT flag, or an event. */
  datatype Item =
    | Buffer(data: seq<byte>, pts: nat, dts: nat, discont: bool)
    | Evt(event: Event)

  /** The part of a media_stream that the producer and the pad task share:
      the paused flag, the GQueue of pending items, and what the source pad
      has been handed so far, in order. */
  datatype Flow = Flow(isPaused: bool, queue: seq<Item>, sent: seq<Item>)

  /** media_stream: whether the source pad exists, the pending-event flags
      and the flow. */
  datatype MediaStream = MediaStream(
    hasSrcpad: bool,
    flush: bool,
    resetPosition: bool,
    streamStart: bool,
    eventsPending: bool,
    flow: Flow)

  /** The zeroed stream left by the memset of gst_aamp_init. */
  const EMPTY_STREAM := MediaStream(false, false, false, false, false, Flow(false, [], []))

  /** A stream as gst_aamp_init leaves it: zeroed, then marked by
      GstAampStreamer::Discontinuity, so its first buffer is preceded by a
      segment at its pts and carries DISCONT. */
  const INIT_STREAM := EMPTY_STREAM.(resetPosition := true, eventsPending := true)

  /** A producer never leaves a queue longer than one past the limit: it
      waits while the queue is longer than the limit, then appends one item. */
  predicate QueueBounded(s: MediaStream)
  {
    |s.flow.queue| <= MAX_NUM_BUFFERS_IN_QUEUE + 1
  }

  /** Result of gst_aamp_push: the new flow, the return value and whether
      an EOS event went out. */
  datatype Pushed = Pushed(flow: Flow, ok: bool, eos: bool)

  /** gst_aamp_push.  `flowOk` is the downstream verdict on a buffer, given
      everything the pad has received including that buffer.  A buffer on a
      paused stream is refused without reaching the pad; a buffer the pad
      refuses pauses the stream; an event always counts as pushed. */
  function PushOne(f: Flow, item: Item, flowOk: seq<Item> -> bool): (r: Pushed)
    ensures r.flow.queue == f.queue
    ensures r.ok <==> item.Evt? || (!f.isPaused && flowOk(f.sent + [item]))
    ensures r.eos <==> item == Evt(Eos)
    ensures r.flow.sent == if item.Buffer? && f.isPaused then f.sent else f.sent + [item]
    ensures r.flow.isPaused <==> f.isPaused || !r.ok
  {
    match item
    case Buffer(_, _, _, _) =>
      if f.isPaused then Pushed(f, false, false)
      else if flowOk(f.sent + [item]) then Pushed(f.(sent := f.sent + [item]), true, false)
      else Pushed(Flow(true, f.queue, f.sent + [item]), false, false)
    case Evt(e) =>
      Pushed(f.(sent := f.sent + [item]), true, e == Eos)
  }

  /** gst_aamp_stream_add_item, once the producer's wait for room is over:
      queued unless a flush is in progress (then dropped), or pushed
      directly when the streams have no pad tasks. */
  function Added(f: Flow, item: Item, srcTasks: bool, flushing: bool, flowOk: seq<Item> -> bool): Flow
  {
    if !srcTasks then PushOne(f, item, flowOk).flow
    else if flushing then f
    else f.(queue := f.queue + [item])
  }

  /** Why the pad task's drain loop returned. */
  datatype StopReason = EosSent | Flushing | PushFailed | NothingQueued

  datatype Drained = Drained(flow: Flow, reason: StopReason)

  /** gst_aamp_stream_push_next_item: pop and push items until an EOS goes
      out, a flush is seen, a push fails or no item is left.  The stream ends
      paused exactly when it was paused or a push failed. */
  function Drain(f: Flow, flushing: bool, flowOk: seq<Item> -> bool): (r: Drained)
    ensures flushing <==> r.reason == Flushing
    ensures flushing ==> r.flow == f
    ensures r.flow.isPaused <==> f.isPaused || r.reason == PushFailed
    ensures |r.flow.queue| <= |f.queue|
    decreases |f.queue|
  {
    if flushing then Drained(f, Flushing)
    else if f.queue == [] then Drained(f, NothingQueued)
    else
      var p := PushOne(f.(queue := f.queue[1..]), f.queue[0], flowOk);
      if !p.ok then Drained(p.flow, PushFailed)
      else if p.eos then Drained(p.flow, EosSent)
      else Drain(p.flow, flushing, flowOk)
  }

  /** What the pad receives from a drain is a prefix of the queue. */
  lemma {:induction false} DrainSendsPrefix(f: Flow, flushing: bool, flowOk: seq<Item> -> bool)
    ensures var r := Drain(f, flushing, flowOk);
      var k := |r.flow.sent| - |f.sent|;
      0 <= k <= |f.queue| && r.flow.sent == f.sent + f.queue[..k]
    decreases |f.queue|
  {
    var r := Drain(f, flushing, flowOk);
    if flushing || f.queue == [] {
      assert r.flow == f;
      assert f.queue[..0] == [];
    } else {
      var q0 := f.queue[0];
      var p := PushOne(f.(queue := f.queue[1..]), q0, flowOk);
      if p.ok && !p.eos {
        DrainSendsPrefix(p.flow, flushing, flowOk);
        assert r == Drain(p.flow, flushing, flowOk);
        var k := |r.flow.sent| - |p.flow.sent|;
        assert p.flow.sent == f.sent + [q0] && p.flow.queue == f.queue[1..];
        assert f.queue[..k + 1] == [q0] + f.queue[1..][..k];
      } else {
        assert r.flow == p.flow;
        if p.flow.sent == f.sent {
          assert f.queue[..0] == [];
        } else {
          assert p.flow.sent == f.sent + [q0] && f.queue[..1] == [q0];
        }
      }
    }
  }

  /** Dropping the head, then k more, is dropping k + 1. */
  lemma DropShift<T>(q: seq<T>, k: nat)
    requires 1 <= |q| && k <= |q| - 1
    ensures q[1..][k..] == q[k + 1..]
    ensures k < |q| - 1 ==> q[1..][k] == q[k + 1] && q[1..][k + 1..] == q[k + 2..]
  {
  }

  /** What a drain leaves queued is the rest of the queue after what the
      pad received, less the buffer a paused stream popped and lost. */
  lemma {:induction false} DrainKeepsRest(f: Flow, flushing: bool, flowOk: seq<Item> -> bool)
    ensures var r := Drain(f, flushing, flowOk);
      var k := |r.flow.sent| - |f.sent|;
      0 <= k <= |f.queue| ==>
        r.flow.queue == f.queue[k..] ||
        (r.reason == PushFailed && f.isPaused && k < |f.queue| && f.queue[k].Buffer? &&
         r.flow.queue == f.queue[k + 1..])
    decreases |f.queue|
  {
    var r := Drain(f, flushing, flowOk);
    if flushing || f.queue == [] {
      assert r.flow == f && f.queue[0..] == f.queue;
    } else {
      var q0 := f.queue[0];
      var p := PushOne(f.(queue := f.queue[1..]), q0, flowOk);
      if p.ok && !p.eos {
        DrainSendsPrefix(p.flow, flushing, flowOk);
        DrainKeepsRest(p.flow, flushing, flowOk);
        assert r == Drain(p.flow, flushing, flowOk);
        var k := |r.flow.sent| - |p.flow.sent|;
        assert p.flow.sent == f.sent + [q0] && p.flow.queue == f.queue[1..] && p.flow.isPaused == f.isPaused;
        assert |r.flow.sent| - |f.sent| == k + 1 && 0 <= k <= |f.queue[1..]|;
        DropShift(f.queue, k);
      } else {
        assert r.flow == p.flow && p.flow.queue == f.queue[1..];
      }
    }
  }

  /** The drain is first-in first-out: the pad receives a prefix of the
      queue and the rest stays queued, except that a buffer met while the
      stream was already paused is popped and lost. */
  lemma DrainIsFifo(f: Flow, flushing: bool, flowOk: seq<Item> -> bool)
    ensures var r := Drain(f, flushing, flowOk);
      var k := |r.flow.sent| - |f.sent|;
      0 <= k <= |f.queue| &&
      r.flow.sent == f.sent + f.queue[..k] &&
      (r.flow.queue == f.queue[k..] ||
       (r.reason == PushFailed && f.isPaused && k < |f.queue| && f.queue[k].Buffer? &&
        r.flow.queue == f.queue[k + 1..]))
  {
    DrainSendsPrefix(f, flushing, flowOk);
    DrainKeepsRest(f, flushing, flowOk);
  }

  /** A drain that stopped for want of items delivered everything that was
      queued, in order. */
  lemma {:induction false} DrainNothingQueued(f: Flow, flushing: bool, flowOk: seq<Item> -> bool)
    ensures var r := Drain(f, flushing, flowOk);
      r.reason == NothingQueued ==> r.flow.queue == [] && r.flow.sent == f.sent + f.queue
    decreases |f.queue|
  {
    if !flushing && f.queue != [] {
      var q0 := f.queue[0];
      var p := PushOne(f.(queue := f.queue[1..]), q0, flowOk);
      if p.ok && !p.eos {
        assert p.flow.sent == f.sent + [q0] && p.flow.queue == f.queue[1..];
        DrainNothingQueued(p.flow, flushing, flowOk);
        assert f.queue == [q0] + f.queue[1..];
      }
    }
  }

  /** A drain that stopped on EOS left EOS as the last item the pad got. */
  lemma {:induction false} DrainEndsWithEos(f: Flow, flushing: bool, flowOk: seq<Item> -> bool)
    ensures var r := Drain(f, flushing, flowOk);
      r.reason == EosSent ==> |r.flow.sent| > 0 && r.flow.sent[|r.flow.sent| - 1] == Evt(Eos)
    decreases |f.queue|
  {
    if !flushing && f.queue != [] {
      var p := PushOne(f.(queue := f.queue[1..]), f.queue[0], flowOk);
      if p.ok && !p.eos {
        DrainEndsWithEos(p.flow, flushing, flowOk);
      }
    }
  }

  /** The events SendPendingEvents emits for a stream's pending flags, in
      order: stream-start and caps, flush-start and flush-stop, segment. */
  function PendingItems(s: MediaStream, pts: nat, appliedRate: real): seq<Item>
  {
    (if s.streamStart then [Evt(StreamStart), Evt(Caps)] else []) +
    (if s.flush then [Evt(FlushStart), Evt(FlushStop(false))] else []) +
    (if s.resetPosition then [Evt(Segment(pts, appliedRate))] else [])
  }

  /** The stream-start step of SendPendingEvents: stream-start and caps,
      then the stream is unpaused. */
  function AfterStreamStart(f: Flow, srcTasks: bool, flushing: bool, flowOk: seq<Item> -> bool): Flow
  {
    Added(Added(f, Evt(StreamStart), srcTasks, flushing, flowOk), Evt(Caps), srcTasks, flushing, flowOk)
      .(isPaused := false)
  }

  /** The flush step: flush-start, the stream is paused, flush-stop. */
  function AfterFlush(f: Flow, srcTasks: bool, flushing: bool, flowOk: seq<Item> -> bool): Flow
  {
    Added(Added(f, Evt(FlushStart), srcTasks, flushing, flowOk).(isPaused := true),
          Evt(FlushStop(false)), srcTasks, flushing, flowOk)
  }

  /** The position-reset step: the stream is unpaused, then a segment
      starting at the buffer's timestamp. */
  function AfterReset(f: Flow, pts: nat, appliedRate: real, srcTasks: bool, flushing: bool,
                      flowOk: seq<Item> -> bool): Flow
  {
    Added(f.(isPaused := false), Evt(Segment(pts, appliedRate)), srcTasks, flushing, flowOk)
  }

  /** GstAampStreamer::SendPendingEvents on one stream: the three steps for
      the flags that are set, then every flag cleared. */
  function PendingEvents(s: MediaStream, pts: nat, appliedRate: real, srcTasks: bool,
                         flushing: bool, flowOk: seq<Item> -> bool): MediaStream
  {
    var f1 := if s.streamStart then AfterStreamStart(s.flow, srcTasks, flushing, flowOk) else s.flow;
    var f2 := if s.flush then AfterFlush(f1, srcTasks, flushing, flowOk) else f1;
    var f3 := if s.resetPosition then AfterReset(f2, pts, appliedRate, srcTasks, flushing, flowOk) else f2;
    MediaStream(s.hasSrcpad, false, false, false, false, f3)
  }

  /** `g` is `f` with `items` handed to the queue (pad tasks, no flush
      running), to nobody (a flush is running) or straight to the pad (no
      pad tasks). */
  predicate Delivered(f: Flow, g: Flow, items: seq<Item>, srcTasks: bool, flushing: bool)
  {
    (srcTasks && !flushing ==> g.queue == f.queue + items && g.sent == f.sent) &&
    (srcTasks && flushing ==> g.queue == f.queue && g.sent == f.sent) &&
    (!srcTasks ==> g.queue == f.queue && g.sent == f.sent + items)
  }

  lemma DeliveredTrans(f: Flow, g: Flow, h: Flow, a: seq<Item>, b: seq<Item>, srcTasks: bool, flushing: bool)
    requires Delivered(f, g, a, srcTasks, flushing) && Delivered(g, h, b, srcTasks, flushing)
    ensures Delivered(f, h, a + b, srcTasks, flushing)
  {
    assert f.queue + a + b == f.queue + (a + b);
    assert f.sent + a + b == f.sent + (a + b);
  }

  /** Adding an event never touches the paused flag; it lands in the queue,
      in nothing (flushing) or on the pad. */
  lemma AddedEvent(f: Flow, e: Event, srcTasks: bool, flushing: bool, flowOk: seq<Item> -> bool)
    ensures var r := Added(f, Evt(e), srcTasks, flushing, flowOk);
      r.isPaused == f.isPaused && Delivered(f, r, [Evt(e)], srcTasks, flushing)
  {
  }

  lemma StreamStartStep(f: Flow, srcTasks: bool, flushing: bool, flowOk: seq<Item> -> bool)
    ensures var r := AfterStreamStart(f, srcTasks, flushing, flowOk);
      !r.isPaused && Delivered(f, r, [Evt(StreamStart), Evt(Caps)], srcTasks, flushing)
  {
    var g := Added(f, Evt(StreamStart), srcTasks, flushing, flowOk);
    AddedEvent(f, StreamStart, srcTasks, flushing, flowOk);
    AddedEvent(g, Caps, srcTasks, flushing, flowOk);
    DeliveredTrans(f, g, Added(g, Evt(Caps), srcTasks, flushing, flowOk), [Evt(StreamStart)], [Evt(Caps)],
                   srcTasks, flushing);
  }

  lemma FlushStep(f: Flow, srcTasks: bool, flushing: bool, flowOk: seq<Item> -> bool)
    ensures var r := AfterFlush(f, srcTasks, flushing, flowOk);
      r.isPaused && Delivered(f, r, [Evt(FlushStart), Evt(FlushStop(false))], srcTasks, flushing)
  {
    var g := Added(f, Evt(FlushStart), srcTasks, flushing, flowOk).(isPaused := true);
    AddedEvent(f, FlushStart, srcTasks, flushing, flowOk);
    AddedEvent(g, FlushStop(false), srcTasks, flushing, flowOk);
    DeliveredTrans(f, g, Added(g, Evt(FlushStop(false)), srcTasks, flushing, flowOk),
                   [Evt(FlushStart)], [Evt(FlushStop(false))], srcTasks, flushing);
  }

  lemma ResetStep(f: Flow, pts: nat, appliedRate: real, srcTasks: bool, flushing: bool, flowOk: seq<Item> -> bool)
    ensures var r := AfterReset(f, pts, appliedRate, srcTasks, flushing, flowOk);
      !r.isPaused && Delivered(f, r, [Evt(Segment(pts, appliedRate))], srcTasks, flushing)
  {
    AddedEvent(f.(isPaused := false), Segment(pts, appliedRate), srcTasks, flushing, flowOk);
  }

  /** SendPendingEvents clears every pending flag and hands exactly the
      pending events, in order, to the queue (pad tasks, no flush running),
      to nobody (a flush is running), or straight to the pad (no pad tasks);
      the stream ends paused exactly when a flush was pending without a
      position reset (or it was paused and nothing reset it). */
  lemma {:induction false} PendingEventsEffect(s: MediaStream, pts: nat, appliedRate: real,
                                               srcTasks: bool, flushing: bool, flowOk: seq<Item> -> bool)
    ensures var r := PendingEvents(s, pts, appliedRate, srcTasks, flushing, flowOk);
      !r.flush && !r.resetPosition && !r.streamStart && !r.eventsPending &&
      r.hasSrcpad == s.hasSrcpad &&
      r.flow.isPaused == (if s.resetPosition then false
                          else if s.flush then true
                          else if s.streamStart then false
                          else s.flow.isPaused) &&
      Delivered(s.flow, r.flow, PendingItems(s, pts, appliedRate), srcTasks, flushing)
  {
    var a := if s.streamStart then [Evt(StreamStart), Evt(Caps)] else [];
    var b := if s.flush then [Evt(FlushStart), Evt(FlushStop(false))] else [];
    var c := if s.resetPosition then [Evt(Segment(pts, appliedRate))] else [];
    var f0 := s.flow;
    var f1 := if s.streamStart then AfterStreamStart(f0, srcTasks, flushing, flowOk) else f0;
    var f2 := if s.flush then AfterFlush(f1, srcTasks, flushing, flowOk) else f1;
    var f3 := if s.resetPosition then AfterReset(f2, pts, appliedRate, srcTasks, flushing, flowOk) else f2;
    if s.streamStart {
      StreamStartStep(f0, srcTasks, flushing, flowOk);
    } else {
      assert f0.queue + a == f0.queue && f0.sent + a == f0.sent;
    }
    if s.flush {
      FlushStep(f1, srcTasks, flushing, flowOk);
    } else {
      assert f1.queue + b == f1.queue && f1.sent + b == f1.sent;
    }
    if s.resetPosition {
      ResetStep(f2, pts, appliedRate, srcTasks, flushing, flowOk);
    } else {
      assert f2.queue + c == f2.queue && f2.sent + c == f2.sent;
    }
    DeliveredTrans(f0, f1, f2, a, b, srcTasks, flushing);
    DeliveredTrans(f0, f2, f3, a + b, c, srcTasks, flushing);
    assert PendingItems(s, pts, appliedRate) == a + b + c;
  }

  /** One stream after the body of gst_aamp_stream_flush: its queue is
      emptied when it has a pad and pad tasks are in use. */
  function QueueFlushed(s: MediaStream, srcTasks: bool): MediaStream
  {
    if s.hasSrcpad && srcTasks then s.(flow := s.flow.(queue := [])) else s
  }

  /** One stream after gst_aamp_stop_and_flush: queue flushed, then
      flush-start and flush-stop(reset-time) pushed straight to the pad. */
  function StoppedAndFlushed(s: MediaStream, srcTasks: bool): MediaStream
  {
    var f := QueueFlushed(s, srcTasks);
    if s.hasSrcpad then f.(flow := f.flow.(sent := f.flow.sent + [Evt(FlushStart), Evt(FlushStop(true))]))
    else f
  }

  /** A stream after a TIME seek: stopped and flushed for a flushing seek,
      and unpaused when the seek sets a position. */
  function SeekedStream(s: MediaStream, flushFlag: bool, srcTasks: bool, startType: SeekType): MediaStream
  {
    var f := if flushFlag then StoppedAndFlushed(s, srcTasks) else s;
    if startType == SeekSet then f.(flow := f.flow.(isPaused := false)) else f
  }

  /** The player calls a TIME seek makes: a rate change alone for
      GST_SEEK_TYPE_NONE, rate and position for GST_SEEK_TYPE_SET, nothing
      for GST_SEEK_TYPE_END. */
  function SeekCalls(newRate: real, startType: SeekType, start: int, stop: int): (r: seq<PlayerCall>)
    requires IsI64(start) && IsI64(stop)
    ensures |r| <= 1
    ensures startType == SeekEnd <==> r == []
    ensures startType == SeekSet ==> r == [SetRateAndSeek(newRate, SeekPosition(newRate, start, stop))]
    ensures startType == SeekNone ==> r == [SetRate(newRate)]
  {
    match startType
    case SeekNone => [SetRate(newRate)]
    case SeekSet => [SetRateAndSeek(newRate, SeekPosition(newRate, start, stop))]
    case SeekEnd => []
  }

  /** After gst_aamp_stop_and_flush, with pad tasks, no item that was
      queued can still reach the pad: the queue is empty and the pad's last
      two events are flush-start and flush-stop. */
  lemma StopAndFlushDiscardsQueue(s: MediaStream)
    requires s.hasSrcpad
    ensures var r := StoppedAndFlushed(s, true);
      r.flow.queue == [] &&
      r.flow.sent == s.flow.sent + [Evt(FlushStart), Evt(FlushStop(true))] &&
      r.(flow := s.flow) == s
  {
  }

  /** GstAampStreamer::SendHelper on the stream that receives the data:
      pending events first (the buffer is then flagged DISCONT), then the
      buffer, unless downloads are off or the copy path found the stream
      paused.  Only reached once the stream has a pad. */
  function HelperStream(s: MediaStream, data: seq<byte>, pts: nat, dts: nat, copy: bool,
                        downloadsEnabled: bool, appliedRate: real, srcTasks: bool,
                        flushing: bool, flowOk: seq<Item> -> bool): MediaStream
  {
    SentStream(s, data, pts, dts, downloadsEnabled && !(copy && s.flow.isPaused), appliedRate, srcTasks,
               flushing, flowOk)
  }

  /** The stream after its pending events and, when `push`, the buffer. */
  function SentStream(s: MediaStream, data: seq<byte>, pts: nat, dts: nat, push: bool, appliedRate: real,
                      srcTasks: bool, flushing: bool, flowOk: seq<Item> -> bool): MediaStream
  {
    var s1 := if s.eventsPending then PendingEvents(s, pts, appliedRate, srcTasks, flushing, flowOk) else s;
    if push then s1.(flow := Added(s1.flow, Buffer(data, pts, dts, s.eventsPending), srcTasks, flushing, flowOk))
    else s1
  }

  /** After a discontinuity (Discontinuity, Stream or Stop set
      resetPosition), the next buffer through the queue is preceded by a
      segment starting at its own timestamp and carries the DISCONT flag. */
  lemma SegmentPrecedesDiscontBuffer(s: MediaStream, data: seq<byte>, pts: nat, dts: nat, copy: bool,
                                     appliedRate: real, flowOk: seq<Item> -> bool)
    requires s.eventsPending && s.resetPosition && !(copy && s.flow.isPaused)
    ensures var r := HelperStream(s, data, pts, dts, copy, true, appliedRate, true, false, flowOk);
      |r.flow.queue| >= 2 &&
      r.flow.queue[|r.flow.queue| - 2] == Evt(Segment(pts, appliedRate)) &&
      r.flow.queue[|r.flow.queue| - 1] == Buffer(data, pts, dts, true)
  {
    PendingEventsEffect(s, pts, appliedRate, true, false, flowOk);
  }

  /** On the copy path a paused stream takes no buffer: only its pending
      events go out. */
  lemma PausedCopyDropsBuffer(s: MediaStream, data: seq<byte>, pts: nat, dts: nat, downloadsEnabled: bool,
                              appliedRate: real, srcTasks: bool, flushing: bool, flowOk: seq<Item> -> bool)
    requires s.flow.isPaused
    ensures var r := HelperStream(s, data, pts, dts, true, downloadsEnabled, appliedRate, srcTasks, flushing, flowOk);
      var items := if s.eventsPending then PendingItems(s, pts, appliedRate) else [];
      (srcTasks && !flushing ==> r.flow.queue == s.flow.queue + items) &&
      (!srcTasks ==> r.flow.sent == s.flow.sent + items)
  {
    if s.eventsPending {
      PendingEventsEffect(s, pts, appliedRate, srcTasks, flushing, flowOk);
    }
  }

  /** While the first `n` queued items are events other than EOS and no
      flush runs, the drain delivers at least those `n` items; if a buffer
      follows them on a paused stream, the drain stops there, losing it. */
  lemma {:induction false} DrainDeliversEvents(f: Flow, flowOk: seq<Item> -> bool, n: nat)
    requires n <= |f.queue|
    requires forall j :: 0 <= j < n ==> f.queue[j].Evt? && f.queue[j] != Evt(Eos)
    ensures var d := Drain(f, false, flowOk);
      |d.flow.sent| >= |f.sent| + n &&
      (n < |f.queue| && f.queue[n].Buffer? && f.isPaused ==>
         d.reason == PushFailed && |d.flow.sent| == |f.sent| + n && d.flow.queue == f.queue[n + 1..])
    decreases n
  {
    var d := Drain(f, false, flowOk);
    if n > 0 {
      var p := PushOne(f.(queue := f.queue[1..]), f.queue[0], flowOk);
      assert p.ok && !p.eos && p.flow.isPaused == f.isPaused;
      assert d == Drain(p.flow, false, flowOk);
      assert forall j :: 0 <= j < n - 1 ==> p.flow.queue[j] == f.queue[j + 1];
      DrainDeliversEvents(p.flow, flowOk, n - 1);
      if n < |f.queue| {
        assert p.flow.queue[n - 1] == f.queue[n];
        assert f.queue[1..][n..] == f.queue[n + 1..];
      }
    } else {
      DrainIsFifo(f, false, flowOk);
    }
  }

  /** A flush request that no position reset accompanies leaves the stream
      paused, so the pad task delivers the flush events, then refuses the
      first buffer and stops. */
  lemma FlushWithoutResetStallsBuffers(s: MediaStream, pts: nat, appliedRate: real,
                                       b: Item, flowOk: seq<Item> -> bool)
    requires s.flush && !s.resetPosition && !s.streamStart && s.flow.queue == [] && b.Buffer?
    ensures var p := PendingEvents(s, pts, appliedRate, true, false, flowOk);
      var d := Drain(p.flow.(queue := p.flow.queue + [b]), false, flowOk);
      d.reason == PushFailed && d.flow.queue == [] &&
      d.flow.sent == s.flow.sent + [Evt(FlushStart), Evt(FlushStop(false))]
  {
    PendingEventsEffect(s, pts, appliedRate, true, false, flowOk);
    var p := PendingEvents(s, pts, appliedRate, true, false, flowOk);
    var q := p.flow.(queue := p.flow.queue + [b]);
    assert q.queue == [Evt(FlushStart), Evt(FlushStop(false)), b];
    DrainDeliversEvents(q, flowOk, 2);
    DrainIsFifo(q, false, flowOk);
  }

  /** The position in seconds that a SET seek hands the player: the stop
      time for a reverse seek, the start time otherwise, divided by
      GST_SECOND as signed 64-bit integers (truncation toward zero). */
  function SeekPosition(rate: real, start: int, stop: int): (pos: int)
    requires IsI64(start) && IsI64(stop)
    ensures var t := if rate < 0.0 then stop else start;
      (t >= 0 ==> 0 <= pos * GST_SECOND <= t < (pos + 1) * GST_SECOND) &&
      (t < 0 ==> (pos - 1) * GST_SECOND < t <= pos * GST_SECOND <= 0)
  {
    TruncDiv(if rate < 0.0 then stop else start, GST_SECOND)
  }

  /** A reverse seek whose stop is unset (-1) asks for position 0, not -1:
      the truncating division rounds toward zero. */
  lemma ReverseSeekWithoutStop(rate: real, start: int)
    requires IsI64(start) && rate < 0.0
    ensures SeekPosition(rate, start, -1) == 0
  {
  }

  /** What the player core has done, by the time gst_aamp_configured's wait
      ends, in reply to the tune started on NULL_TO_READY. */
  datatype TuneProgress =
    | ConfiguredBy(videoCaps: bool, audioCaps: bool, muxed: bool)
    | TuneFailedEvent
    | NoProgress

  /** Calls the element makes on the player instance. */
  datatype PlayerCall = Tune | StopPlayback | SetRate(rate: real) | SetRateAndSeek(rate: real, pos: int)

  /** GstSeekType of a seek's start position. */
  datatype SeekType = SeekNone | SeekSet | SeekEnd

  /** The state reached by gst_aamp_configure as written: CONFIGURED only
      when the audio caps exist, because the test reuses `caps`, which by
      then holds the audio caps. */
  function ConfiguredStateAsWritten(state: AampState, videoCaps: bool, audioCaps: bool): AampState
  {
    if Rank(state) >= Rank(StateConfigured) then state
    else if audioCaps then StateConfigured
    else state
  }

  /** The state evidently intended: CONFIGURED once any pad was created. */
  function ConfiguredState(state: AampState, videoCaps: bool, audioCaps: bool): (r: AampState)
    ensures Rank(state) < Rank(StateConfigured) ==>
      (r == StateConfigured <==> videoCaps || audioCaps) && (r != StateConfigured ==> r == state)
    ensures Rank(state) >= Rank(StateConfigured) ==> r == state
  {
    if Rank(state) >= Rank(StateConfigured) then state
    else if videoCaps || audioCaps then StateConfigured
    else state
  }

  /** A video-only stream never reaches CONFIGURED as written, so its
      Configure does not end the NULL_TO_READY wait in gst_aamp_configured
      (only a tune failure or a spurious wake-up does); the corrected state
      admits it. */
  lemma VideoOnlyNeverConfigured()
    ensures ConfiguredStateAsWritten(StateTuning, true, false) == StateTuning
    ensures ConfiguredState(StateTuning, true, false) == StateConfigured
  {
  }

  /** The element's scalar state, gathered so that a method can say in one
      equation what it changes. */
  datatype Controls = Controls(
    state: AampState,
    rate: real,
    seekFlush: bool,
    flushing: bool,
    enableSrcTasks: bool,
    audioEnabled: bool,
    readyToSend: bool,
    streamerRate: real,
    playerCalls: seq<PlayerCall>)

  /** A stream with its isPaused flag cleared. */
  function Unpaused(s: MediaStream): MediaStream
  {
    s.(flow := s.flow.(isPaused := false))
  }

  /** A stream as gst_aamp_configure leaves it for a format with (`caps`)
      or without caps: a new source pad and an initialised, empty queue. */
  function WithPad(s: MediaStream, caps: bool): MediaStream
  {
    if caps then s.(hasSrcpad := true, flow := s.flow.(queue := [])) else s
  }

  /** Whether the audio pad is enabled after gst_aamp_update_audio_src_pad:
      with a pad, exactly at normal rate; without one, unchanged. */
  function AudioEnabledAfter(audio: MediaStream, rate: real, enabled: bool): bool
  {
    if audio.hasSrcpad then rate == NORMAL_PLAY_RATE else enabled
  }

  /** The audio stream after gst_aamp_update_audio_src_pad: enabling a
      disabled pad requests a new stream start. */
  function AudioPadUpdated(audio: MediaStream, rate: real, enabled: bool): MediaStream
  {
    if audio.hasSrcpad && rate == NORMAL_PLAY_RATE && !enabled
    then audio.(streamStart := true, eventsPending := true)
    else audio
  }

  /** The controls after GstAampStreamer::Configure on controls `c` and the
      audio stream `audio`: the seek flush is forgotten; an element already
      CONFIGURED only updates its audio pad, any other selects pad tasks by
      `muxed` and moves to ConfiguredState. */
  function ConfiguredControls(c: Controls, audio: MediaStream, videoCaps: bool, audioCaps: bool,
                              muxed: bool): Controls
  {
    if Rank(c.state) >= Rank(StateConfigured)
    then c.(seekFlush := false, audioEnabled := AudioEnabledAfter(audio, c.rate, c.audioEnabled))
    else c.(seekFlush := false, enableSrcTasks := muxed, state := ConfiguredState(c.state, videoCaps, audioCaps))
  }

  /** The streams after GstAampStreamer::Configure: both are unpaused; an
      element already CONFIGURED updates the audio pad, any other creates a
      pad for each format with caps. */
  function ConfiguredStreams(c: Controls, s: seq<MediaStream>, videoCaps: bool, audioCaps: bool): (r: seq<MediaStream>)
    requires |s| == STREAM_COUNT
    ensures |r| == STREAM_COUNT
  {
    if Rank(c.state) >= Rank(StateConfigured)
    then [Unpaused(s[VIDEO]), AudioPadUpdated(Unpaused(s[AUDIO]), c.rate, c.audioEnabled)]
    else [WithPad(Unpaused(s[VIDEO]), videoCaps), WithPad(Unpaused(s[AUDIO]), audioCaps)]
  }

  /** What ends the wait of gst_aamp_configured during NULL_TO_READY, on
      controls `c` and streams `s`: a Configure, a tune-failed event (state
      ERROR), or nothing (a spurious wake-up). */
  function TuneOutcome(c: Controls, s: seq<MediaStream>, p: TuneProgress): (r: (Controls, seq<MediaStream>))
    requires |s| == STREAM_COUNT
    ensures |r.1| == STREAM_COUNT
  {
    match p
    case ConfiguredBy(v, a, m) => (ConfiguredControls(c, s[AUDIO], v, a, m), ConfiguredStreams(c, s, v, a))
    case TuneFailedEvent => (c.(state := StateError), s)
    case NoProgress => (c, s)
  }

  /** A first Configure creates a pad, with an empty, unpaused queue, for
      each format with caps and keeps the other stream's pad as it was; it
      reaches CONFIGURED iff some format had caps. */
  lemma FirstConfigureCreatesPads(c: Controls, s: seq<MediaStream>, videoCaps: bool, audioCaps: bool, muxed: bool)
    requires |s| == STREAM_COUNT && Rank(c.state) < Rank(StateConfigured)
    ensures var r := ConfiguredStreams(c, s, videoCaps, audioCaps);
      forall j :: 0 <= j < STREAM_COUNT ==>
        var caps := if j == VIDEO then videoCaps else audioCaps;
        !r[j].flow.isPaused && r[j].flow.sent == s[j].flow.sent &&
        (caps ==> r[j].hasSrcpad && r[j].flow.queue == []) &&
        (!caps ==> r[j].hasSrcpad == s[j].hasSrcpad && r[j].flow.queue == s[j].flow.queue)
    ensures var k := ConfiguredControls(c, s[AUDIO], videoCaps, audioCaps, muxed);
      (k.state == StateConfigured <==> videoCaps || audioCaps) &&
      (k.state != StateConfigured ==> k.state == c.state) &&
      k.enableSrcTasks == muxed && !k.seekFlush
  {
  }

  /** A Configure on an element already CONFIGURED keeps its state, pads and
      queues, unpauses both streams, and leaves the audio pad enabled iff
      the rate is normal; only a newly enabled audio pad owes a stream
      start. */
  lemma ConfigureAgainKeepsPads(c: Controls, s: seq<MediaStream>, videoCaps: bool, audioCaps: bool, muxed: bool)
    requires |s| == STREAM_COUNT && Rank(c.state) >= Rank(StateConfigured)
    ensures var r := ConfiguredStreams(c, s, videoCaps, audioCaps);
      forall j :: 0 <= j < STREAM_COUNT ==>
        !r[j].flow.isPaused && r[j].hasSrcpad == s[j].hasSrcpad && r[j].flow.queue == s[j].flow.queue
    ensures var k := ConfiguredControls(c, s[AUDIO], videoCaps, audioCaps, muxed);
      k.state == c.state && k.enableSrcTasks == c.enableSrcTasks &&
      (s[AUDIO].hasSrcpad ==> k.audioEnabled == (c.rate == NORMAL_PLAY_RATE))
    ensures ConfiguredStreams(c, s, videoCaps, audioCaps)[AUDIO].streamStart ==
      (s[AUDIO].streamStart || (s[AUDIO].hasSrcpad && c.rate == NORMAL_PLAY_RATE && !c.audioEnabled))
  {
  }

  /** The tune's outcome decides the NULL_TO_READY answer: the element is
      configured after a Configure with some caps or a tune failure (ERROR
      counts, by the `>=` test), and not after nothing or a Configure with
      no caps. */
  lemma TuneOutcomeConfigured(c: Controls, s: seq<MediaStream>, p: TuneProgress)
    requires |s| == STREAM_COUNT && c.state == StateTuning
    ensures Rank(TuneOutcome(c, s, p).0.state) >= Rank(StateConfigured) <==>
      p.TuneFailedEvent? || (p.ConfiguredBy? && (p.videoCaps || p.audioCaps))
    ensures TuneOutcome(c, s, p).0.state ==
      match p
      case ConfiguredBy(v, a, _) => ConfiguredState(StateTuning, v, a)
      case TuneFailedEvent => StateError
      case NoProgress => StateTuning
  {
  }

  /** GstAamp together with its GstAampStreamer context. */
  class Aamp {
    /** stream[VIDEO] and stream[AUDIO], the media_stream array embedded in
        the element. */
    var stream: seq<MediaStream>
    var flushing: bool
    var seekFlush: bool
    var state: AampState
    var audioEnabled: bool
    /** GstAamp::rate, the rate of the last seek. */
    var rate: real
    var enableSrcTasks: bool
    /** GstAampStreamer::readyToSend and GstAampStreamer::rate. */
    var readyToSend: bool
    var streamerRate: real
    var playerCalls: seq<PlayerCall>

    ghost predicate Valid()
      reads this
    {
      |stream| == STREAM_COUNT &&
      QueueBounded(stream[VIDEO]) && QueueBounded(stream[AUDIO])
    }

    ghost function Ctl(): Controls
      reads this
    {
      Controls(state, rate, seekFlush, flushing, enableSrcTasks, audioEnabled, readyToSend,
               streamerRate, playerCalls)
    }

    /** gst_aamp_init and the GstAampStreamer constructor: the streams are
        zeroed and then both marked by Discontinuity. */
    constructor ()
      ensures Valid()
      ensures stream == [INIT_STREAM, INIT_STREAM]
      ensures Ctl() == Controls(StateNone, NORMAL_PLAY_RATE, false, false, false, false, false,
                                NORMAL_PLAY_RATE, [])
    {
      stream := [EMPTY_STREAM, EMPTY_STREAM];
      flushing := false;
      seekFlush := false;
      state := StateNone;
      audioEnabled := false;
      rate := NORMAL_PLAY_RATE;
      enableSrcTasks := false;
      readyToSend := false;
      streamerRate := NORMAL_PLAY_RATE;
      playerCalls := [];
      new;
      var videoDone := Discontinuity(VIDEO);
      var audioDone := Discontinuity(AUDIO);
    }

    /** gst_aamp_push on stream `i`. */
    method Push(i: nat, item: Item, flowOk: seq<Item> -> bool) returns (ok: bool, eos: bool)
      requires Valid() && i < STREAM_COUNT
      modifies this
      ensures Valid()
      ensures Ctl() == old(Ctl())
      ensures stream[i] == old(stream[i]).(flow := PushOne(old(stream[i].flow), item, flowOk).flow)
      ensures ok == PushOne(old(stream[i].flow), item, flowOk).ok
      ensures eos == PushOne(old(stream[i].flow), item, flowOk).eos
      ensures stream[1 - i] == old(stream[1 - i])
    {
      var f := stream[i].flow;
      if item.Buffer? {
        if f.isPaused {
          return false, false;
        }
        ok, eos := true, false;
        var accepted := flowOk(f.sent + [item]);
        if !accepted {
          f := f.(isPaused := true);
          ok := false;
        }
        stream := stream[i := stream[i].(flow := f.(sent := f.sent + [item]))];
      } else {
        eos := item.event == Eos;
        stream := stream[i := stream[i].(flow := f.(sent := f.sent + [item]))];
        ok := true;
      }
    }

    /** gst_aamp_stream_add_item on stream `i`, which must have a pad.  The
        producer's wait for room is the precondition on the queue length. */
    method AddItem(i: nat, item: Item, flowOk: seq<Item> -> bool)
      requires Valid() && i < STREAM_COUNT && stream[i].hasSrcpad
      requires enableSrcTasks ==> |stream[i].flow.queue| <= MAX_NUM_BUFFERS_IN_QUEUE
      modifies this
      ensures Valid()
      ensures Ctl() == old(Ctl())
      ensures stream[i] == old(stream[i]).(flow := Added(old(stream[i].flow), item, enableSrcTasks, flushing, flowOk))
      ensures stream[1 - i] == old(stream[1 - i])
    {
      if enableSrcTasks {
        if !flushing {
          stream := stream[i := stream[i].(flow := stream[i].flow.(queue := stream[i].flow.queue + [item]))];
        }
      } else {
        var _, _ := Push(i, item, flowOk);
      }
    }

    /** gst_aamp_stream_push_next_item: the pad task's drain loop. */
    method PushNextItem(i: nat, flowOk: seq<Item> -> bool) returns (reason: StopReason)
      requires Valid() && i < STREAM_COUNT
      modifies this
      ensures Valid()
      ensures Ctl() == old(Ctl())
      ensures stream[i] == old(stream[i]).(flow := Drain(old(stream[i].flow), flushing, flowOk).flow)
      ensures reason == Drain(old(stream[i].flow), flushing, flowOk).reason
      ensures stream[1 - i] == old(stream[1 - i])
    {
      ghost var target := Drain(stream[i].flow, flushing, flowOk);
      var f := stream[i].flow;
      var eosSent := false;
      reason := NothingQueued;
      while !eosSent
        invariant !eosSent ==> Drain(f, flushing, flowOk) == target
        invariant eosSent ==> f == target.flow && target.reason == EosSent && reason == EosSent
        decreases |f.queue|, !eosSent
      {
        if flushing {
          reason := Flushing;
          break;
        }
        if f.queue == [] {
          // the wait for an item ended without one: g_queue_pop_head gives NULL
          reason := NothingQueued;
          break;
        }
        var item := f.queue[0];
        f := f.(queue := f.queue[1..]);
        var pushed := PushOne(f, item, flowOk);   // gst_aamp_push
        f := pushed.flow;
        eosSent := pushed.eos;
        if !pushed.ok {
          reason := PushFailed;
          break;
        }
        if eosSent {
          reason := EosSent;
        }
      }
      stream := stream[i := stream[i].(flow := f)];
    }

    /** gst_aamp_stream_flush: empties the queue of every stream that has a
        pad, when pad tasks are in use. */
    method StreamFlush()
      requires Valid()
      modifies this
      ensures Valid()
      ensures Ctl() == old(Ctl())
      ensures forall j :: 0 <= j < STREAM_COUNT ==> stream[j] == QueueFlushed(old(stream[j]), enableSrcTasks)
    {
      var streams := stream;
      for i := 0 to STREAM_COUNT
        invariant |streams| == STREAM_COUNT
        invariant forall j :: 0 <= j < i ==> streams[j] == QueueFlushed(old(stream[j]), enableSrcTasks)
        invariant forall j :: i <= j < STREAM_COUNT ==> streams[j] == old(stream[j])
      {
        if streams[i].hasSrcpad && enableSrcTasks {
          var s := streams[i];
          while s.flow.queue != []
            invariant s == streams[i].(flow := streams[i].flow.(queue := s.flow.queue))
            decreases |s.flow.queue|
          {
            s := s.(flow := s.flow.(queue := s.flow.queue[1..]));   // popped and unreferenced
          }
          streams := streams[i := s];
        }
      }
      stream := streams;
    }

    /** gst_aamp_stop_and_flush. */
    method StopAndFlush()
      requires Valid()
      modifies this
      ensures Valid()
      ensures stream[VIDEO] == StoppedAndFlushed(old(stream[VIDEO]), enableSrcTasks)
      ensures stream[AUDIO] == StoppedAndFlushed(old(stream[AUDIO]), enableSrcTasks)
      ensures Ctl() == old(Ctl()).(flushing := false)
    {
      flushing := true;
      StreamFlush();
      var streams := stream;
      for i := 0 to STREAM_COUNT
        invariant |streams| == STREAM_COUNT
        invariant forall j :: 0 <= j < i ==> streams[j] == StoppedAndFlushed(old(stream[j]), enableSrcTasks)
        invariant forall j :: i <= j < STREAM_COUNT ==> streams[j] == QueueFlushed(old(stream[j]), enableSrcTasks)
      {
        if streams[i].hasSrcpad {
          var f := streams[i].flow;
          var sent := f.sent + [Evt(FlushStart)];   // the pad task is stopped in between
          sent := sent + [Evt(FlushStop(true))];
          streams := streams[i := streams[i].(flow := f.(sent := sent))];
        }
      }
      stream := streams;
      flushing := false;
    }

    /** GstAampStreamer::SendPendingEvents on stream `i`: each event goes
        through gst_aamp_stream_add_item (Added).  The producer waits for
        room before each event; the precondition is that room. */
    method SendPendingEvents(i: nat, pts: nat, flowOk: seq<Item> -> bool)
      requires Valid() && i < STREAM_COUNT && stream[i].hasSrcpad
      requires enableSrcTasks ==>
        |stream[i].flow.queue| + |PendingItems(stream[i], pts, streamerRate)| <= MAX_NUM_BUFFERS_IN_QUEUE + 1
      modifies this
      ensures Valid()
      ensures Ctl() == old(Ctl())
      ensures stream[i] == PendingEvents(old(stream[i]), pts, streamerRate, enableSrcTasks, flushing, flowOk)
      ensures stream[1 - i] == old(stream[1 - i])
    {
      var s := stream[i];
      var f := s.flow;
      if s.streamStart {
        f := Added(f, Evt(StreamStart), enableSrcTasks, flushing, flowOk);
        f := Added(f, Evt(Caps), enableSrcTasks, flushing, flowOk);
        f := f.(isPaused := false);
      }
      if s.flush {
        f := Added(f, Evt(FlushStart), enableSrcTasks, flushing, flowOk);
        f := f.(isPaused := true);
        f := Added(f, Evt(FlushStop(false)), enableSrcTasks, flushing, flowOk);
      }
      if s.resetPosition {
        f := f.(isPaused := false);
        f := Added(f, Evt(Segment(pts, streamerRate)), enableSrcTasks, flushing, flowOk);
      }
      PendingEventsEffect(s, pts, streamerRate, enableSrcTasks, flushing, flowOk);
      stream := stream[i := MediaStream(s.hasSrcpad, false, false, false, false, f)];
    }

    /** gst_aamp_ready: waits while the state is before READY (the
        precondition), then reports whether it is READY rather than shutting
        down or failed. */
    method IsReady() returns (r: bool)
      requires Rank(state) >= Rank(StateReady)
      ensures r <==> state == StateReady
      ensures !r <==> state in {StateShuttingDown, StateError}
    {
      r := state == StateReady;
    }

    /** gst_aamp_configured, after its single wait while TUNING (the caller
        applies whatever ended the wait first; a wait that ended with no
        progress leaves TUNING): CONFIGURED or later passes, which includes
        a shut-down or failed element. */
    method IsConfigured() returns (r: bool)
      ensures r <==> state in {StateConfigured, StateReady, StateShuttingDown, StateError}
      ensures !r <==> state in {StateNone, StateTuning}
    {
      r := Rank(state) >= Rank(StateConfigured);
    }

    /** The loop of SendHelper that marks every stream paused once the
        stream being fed is found paused. */
    method PauseAllStreams()
      requires Valid()
      modifies this
      ensures Valid()
      ensures Ctl() == old(Ctl())
      ensures forall j :: 0 <= j < STREAM_COUNT ==>
        stream[j] == old(stream[j]).(flow := old(stream[j].flow).(isPaused := true))
    {
      var streams := stream;
      for j := 0 to STREAM_COUNT
        invariant |streams| == STREAM_COUNT
        invariant forall k :: 0 <= k < j ==> streams[k] == old(stream[k]).(flow := old(stream[k].flow).(isPaused := true))
        invariant forall k :: j <= k < STREAM_COUNT ==> streams[k] == old(stream[k])
      {
        streams := streams[j := streams[j].(flow := streams[j].flow.(isPaused := true))];
      }
      stream := streams;
    }

    /** The part of GstAampStreamer::SendHelper after the readiness check,
        for a stream `i` that has a pad. */
    method Deliver(i: nat, data: seq<byte>, pts: nat, dts: nat, copy: bool, downloadsEnabled: bool,
                   flowOk: seq<Item> -> bool)
      requires Valid() && i < STREAM_COUNT && stream[i].hasSrcpad
      requires enableSrcTasks ==>
        |stream[i].flow.queue| + |PendingItems(stream[i], pts, streamerRate)| <= MAX_NUM_BUFFERS_IN_QUEUE
      modifies this
      ensures Valid()
      ensures Ctl() == old(Ctl())
      ensures stream[i] == HelperStream(old(stream[i]), data, pts, dts, copy, downloadsEnabled,
                                        streamerRate, enableSrcTasks, flushing, flowOk)
      ensures stream[1 - i] == (if copy && old(stream[i].flow.isPaused)
                                then old(stream[1 - i]).(flow := old(stream[1 - i].flow).(isPaused := true))
                                else old(stream[1 - i]))
    {
      var pushBuffer := true;
      if copy {
        if stream[i].flow.isPaused {
          PauseAllStreams();
        }
        pushBuffer := !stream[i].flow.isPaused;
      }
      SendEventsAndBuffer(i, data, pts, dts, downloadsEnabled && pushBuffer, flowOk);
    }

    /** The pending events of stream `i`, then its buffer when `push`
        (flagged DISCONT after pending events). */
    method SendEventsAndBuffer(i: nat, data: seq<byte>, pts: nat, dts: nat, push: bool,
                               flowOk: seq<Item> -> bool)
      requires Valid() && i < STREAM_COUNT && stream[i].hasSrcpad
      requires enableSrcTasks ==>
        |stream[i].flow.queue| + |PendingItems(stream[i], pts, streamerRate)| <= MAX_NUM_BUFFERS_IN_QUEUE
      modifies this
      ensures Valid()
      ensures Ctl() == old(Ctl())
      ensures stream[i] == SentStream(old(stream[i]), data, pts, dts, push, streamerRate, enableSrcTasks,
                                      flushing, flowOk)
      ensures stream[1 - i] == old(stream[1 - i])
    {
      var discontinuity := false;
      if stream[i].eventsPending {
        PendingEventsEffect(stream[i], pts, streamerRate, enableSrcTasks, flushing, flowOk);
        SendPendingEvents(i, pts, flowOk);
        discontinuity := true;
      }
      if push {
        AddItem(i, Buffer(data, pts, dts, discontinuity), flowOk);
      }
    }

    /** GstAampStreamer::SendHelper (SendCopy when `copy`, SendTransfer
        otherwise) for stream `i`, with `pts` and `dts` already converted to
        nanoseconds.  Returns whether the element was ready to take data. */
    method SendHelper(i: nat, data: seq<byte>, pts: nat, dts: nat, copy: bool, downloadsEnabled: bool,
                      flowOk: seq<Item> -> bool) returns (accepted: bool)
      requires Valid() && i < STREAM_COUNT
      requires readyToSend || Rank(state) >= Rank(StateReady)
      requires enableSrcTasks ==>
        |stream[i].flow.queue| + |PendingItems(stream[i], pts, streamerRate)| <= MAX_NUM_BUFFERS_IN_QUEUE
      modifies this
      ensures Valid()
      ensures accepted <==> old(readyToSend) || old(state) == StateReady
      ensures Ctl() == old(Ctl()).(readyToSend := accepted)
      ensures !accepted || !old(stream[i].hasSrcpad) ==> stream == old(stream)
      ensures accepted && old(stream[i].hasSrcpad) ==>
        stream[i] == HelperStream(old(stream[i]), data, pts, dts, copy, downloadsEnabled,
                                  streamerRate, enableSrcTasks, flushing, flowOk) &&
        stream[1 - i] == (if copy && old(stream[i].flow.isPaused)
                          then old(stream[1 - i]).(flow := old(stream[1 - i].flow).(isPaused := true))
                          else old(stream[1 - i]))
    {
      if !readyToSend {
        var ready := IsReady();
        if !ready {
          return false;
        }
        readyToSend := true;
      }
      accepted := true;
      if stream[i].hasSrcpad {
        Deliver(i, data, pts, dts, copy, downloadsEnabled, flowOk);
      }
    }

    /** GstAampStreamer::EndOfStreamReached. */
    method EndOfStreamReached(i: nat, flowOk: seq<Item> -> bool)
      requires Valid() && i < STREAM_COUNT
      requires enableSrcTasks ==> |stream[i].flow.queue| <= MAX_NUM_BUFFERS_IN_QUEUE
      modifies this
      ensures Valid()
      ensures Ctl() == old(Ctl())
      ensures stream[i] == if old(stream[i].hasSrcpad)
                           then old(stream[i]).(flow := Added(old(stream[i].flow), Evt(Eos), enableSrcTasks, flushing, flowOk))
                           else old(stream[i])
      ensures stream[1 - i] == old(stream[1 - i])
    {
      if stream[i].hasSrcpad {
        AddItem(i, Evt(Eos), flowOk);
      }
    }

    /** GstAampStreamer::Discontinuity: always answers false. */
    method Discontinuity(i: nat) returns (r: bool)
      requires Valid() && i < STREAM_COUNT
      modifies this
      ensures Valid()
      ensures Ctl() == old(Ctl()) && !r
      ensures stream[i] == old(stream[i]).(resetPosition := true, eventsPending := true)
      ensures stream[1 - i] == old(stream[1 - i])
    {
      stream := stream[i := stream[i].(resetPosition := true, eventsPending := true)];
      r := false;
    }

    /** GstAampStreamer::Flush: requests a flush on every stream, once per
        seek (a second call before the next Configure changes nothing). */
    method Flush()
      requires Valid()
      modifies this
      ensures Valid()
      ensures Ctl() == old(Ctl()).(seekFlush := true)
      ensures old(seekFlush) ==> stream == old(stream)
      ensures !old(seekFlush) ==>
        forall j :: 0 <= j < STREAM_COUNT ==> stream[j] == old(stream[j]).(flush := true, eventsPending := true)
    {
      if !seekFlush {
        var streams := stream;
        for j := 0 to STREAM_COUNT
          invariant |streams| == STREAM_COUNT
          invariant forall k :: 0 <= k < j ==> streams[k] == old(stream[k]).(flush := true, eventsPending := true)
          invariant forall k :: j <= k < STREAM_COUNT ==> streams[k] == old(stream[k])
        {
          streams := streams[j := streams[j].(flush := true, eventsPending := true)];
        }
        stream := streams;
        seekFlush := true;
      }
    }

    /** GstAampStreamer::Stop: flush and position reset on every stream. */
    method Stop()
      requires Valid()
      modifies this
      ensures Valid()
      ensures Ctl() == old(Ctl()).(seekFlush := true)
      ensures forall j :: 0 <= j < STREAM_COUNT ==>
        stream[j] == old(stream[j]).(resetPosition := true, flush := true, eventsPending := true)
    {
      var streams := stream;
      for j := 0 to STREAM_COUNT
        invariant |streams| == STREAM_COUNT
        invariant forall k :: 0 <= k < j ==>
          streams[k] == old(stream[k]).(resetPosition := true, flush := true, eventsPending := true)
        invariant forall k :: j <= k < STREAM_COUNT ==> streams[k] == old(stream[k])
      {
        streams := streams[j := streams[j].(resetPosition := true, flush := true, eventsPending := true)];
      }
      stream := streams;
      seekFlush := true;
    }

    /** GstAampStreamer::Stream: a position reset on every stream. */
    method Stream()
      requires Valid()
      modifies this
      ensures Valid()
      ensures Ctl() == old(Ctl())
      ensures forall j :: 0 <= j < STREAM_COUNT ==>
        stream[j] == old(stream[j]).(resetPosition := true, eventsPending := true)
    {
      var streams := stream;
      for j := 0 to STREAM_COUNT
        invariant |streams| == STREAM_COUNT
        invariant forall k :: 0 <= k < j ==> streams[k] == old(stream[k]).(resetPosition := true, eventsPending := true)
        invariant forall k :: j <= k < STREAM_COUNT ==> streams[k] == old(stream[k])
      {
        streams := streams[j := streams[j].(resetPosition := true, eventsPending := true)];
      }
      stream := streams;
    }

    /** gst_aamp_update_audio_src_pad: the audio pad is enabled at normal
        rate and disabled at any other; enabling requests a stream start. */
    method UpdateAudioSrcPad()
      requires Valid()
      modifies this
      ensures Valid()
      ensures Ctl() == old(Ctl()).(audioEnabled := AudioEnabledAfter(old(stream[AUDIO]), rate, old(audioEnabled)))
      ensures old(stream[AUDIO].hasSrcpad) ==> audioEnabled == (rate == NORMAL_PLAY_RATE)
      ensures !old(stream[AUDIO].hasSrcpad) ==> audioEnabled == old(audioEnabled)
      ensures stream[AUDIO] == AudioPadUpdated(old(stream[AUDIO]), rate, old(audioEnabled))
      ensures stream[VIDEO] == old(stream[VIDEO])
    {
      if stream[AUDIO].hasSrcpad {
        var enableAudio := rate == NORMAL_PLAY_RATE;
        if enableAudio && !audioEnabled {
          stream := stream[AUDIO := stream[AUDIO].(streamStart := true, eventsPending := true)];
          audioEnabled := true;
        } else if !enableAudio && audioEnabled {
          audioEnabled := false;
        }
      }
    }

    /** GstAampStreamer::Configure and gst_aamp_configure: `videoCaps` and
        `audioCaps` say whether the output formats have caps (a pad is then
        created); `muxed` selects pad tasks.  Uses the corrected CONFIGURED
        test, ConfiguredState. */
    method Configure(videoCaps: bool, audioCaps: bool, muxed: bool)
      requires Valid()
      modifies this
      ensures Valid()
      ensures Ctl() == ConfiguredControls(old(Ctl()), old(stream[AUDIO]), videoCaps, audioCaps, muxed)
      ensures stream == ConfiguredStreams(old(Ctl()), old(stream), videoCaps, audioCaps)
    {
      stream := [Unpaused(stream[VIDEO]), Unpaused(stream[AUDIO])];
      seekFlush := false;
      if Rank(state) >= Rank(StateConfigured) {
        ghost var unpaused := stream;
        UpdateAudioSrcPad();
        assert stream == [unpaused[VIDEO], AudioPadUpdated(unpaused[AUDIO], rate, old(audioEnabled))];
        return;
      }
      enableSrcTasks := muxed;
      stream := [WithPad(stream[VIDEO], videoCaps), WithPad(stream[AUDIO], audioCaps)];
      if videoCaps || audioCaps {
        state := StateConfigured;
      }
    }

    /** The AAMP_EVENT_TUNE_FAILED branch of GstAampStreamer::Event. */
    method TuneFailed()
      modifies this
      ensures Ctl() == old(Ctl()).(state := StateError) && stream == old(stream)
    {
      state := StateError;
    }

    /** gst_aamp_change_state.  `uriOk` is the answer of the URI query,
        `progress` what the player core did during the tune, `parentRet` the
        parent class's answer and `live` whether the stream is live. */
    method ChangeState(t: Transition, uriOk: bool, progress: TuneProgress, parentRet: StateChangeReturn,
                       live: bool) returns (ret: StateChangeReturn)
      requires Valid()
      modifies this
      ensures Valid()
      ensures t == NullToReady && !uriOk ==> ret == Failure && Ctl() == old(Ctl())
      ensures t == NullToReady && uriOk ==>
        var tuning := old(Ctl()).(state := StateTuning, playerCalls := old(playerCalls) + [Tune]);
        (parentRet == Failure ==> ret == Failure && Ctl() == tuning && stream == old(stream)) &&
        (parentRet != Failure ==>
          (Ctl(), stream) == TuneOutcome(tuning, old(stream), progress) &&
          (ret == Failure <==>
             progress.NoProgress? || (progress.ConfiguredBy? && !progress.videoCaps && !progress.audioCaps)) &&
          (ret != Failure ==> ret == parentRet))
      ensures t == ReadyToPaused ==>
        state == StateReady &&
        ret == (if parentRet != Failure && live then NoPreroll else parentRet) &&
        stream[VIDEO] == (if old(stream[VIDEO].hasSrcpad)
                          then old(stream[VIDEO]).(streamStart := true, eventsPending := true)
                          else old(stream[VIDEO])) &&
        stream[AUDIO] == AudioPadUpdated(old(stream[AUDIO]), old(rate), old(audioEnabled)) &&
        Ctl() == old(Ctl()).(state := StateReady,
                             audioEnabled := AudioEnabledAfter(old(stream[AUDIO]), old(rate), old(audioEnabled)))
      ensures t == PausedToReady ==>
        (old(enableSrcTasks) ==>
          stream[VIDEO] == StoppedAndFlushed(old(stream[VIDEO]), true) &&
          stream[AUDIO] == StoppedAndFlushed(old(stream[AUDIO]), true)) &&
        (!old(enableSrcTasks) ==> stream == old(stream)) &&
        ret == parentRet &&
        (var c := if old(enableSrcTasks) then old(Ctl()).(flushing := false) else old(Ctl());
         (parentRet == Failure ==> Ctl() == c) &&
         (parentRet != Failure ==> Ctl() == c.(state := StateShuttingDown,
                                               playerCalls := old(playerCalls) + [StopPlayback])))
      ensures t in {PausedToPlaying, PlayingToPaused, ReadyToNull} ==>
        ret == parentRet && Ctl() == old(Ctl()) && stream == old(stream)
    {
      var refused := BeforeParent(t, uriOk);
      if refused {
        return Failure;
      }
      ret := parentRet;
      if ret == Failure {
        return;
      }
      ghost var tuning := Ctl();
      ghost var streams := stream;
      ret := AfterParent(t, progress, parentRet, live);
      if t == NullToReady {
        TuneOutcomeConfigured(tuning, streams, progress);
      }
    }

    /** The first switch of gst_aamp_change_state, before the parent class
        runs: `refused` when NULL_TO_READY finds no URI. */
    method BeforeParent(t: Transition, uriOk: bool) returns (refused: bool)
      requires Valid()
      modifies this
      ensures Valid()
      ensures refused <==> t == NullToReady && !uriOk
      ensures t == NullToReady && !uriOk ==> Ctl() == old(Ctl()) && stream == old(stream)
      ensures t == NullToReady && uriOk ==>
        Ctl() == old(Ctl()).(state := StateTuning, playerCalls := old(playerCalls) + [Tune]) &&
        stream == old(stream)
      ensures t == ReadyToPaused ==>
        state == StateReady &&
        stream[VIDEO] == (if old(stream[VIDEO].hasSrcpad)
                          then old(stream[VIDEO]).(streamStart := true, eventsPending := true)
                          else old(stream[VIDEO])) &&
        stream[AUDIO] == AudioPadUpdated(old(stream[AUDIO]), old(rate), old(audioEnabled)) &&
        Ctl() == old(Ctl()).(state := StateReady,
                             audioEnabled := AudioEnabledAfter(old(stream[AUDIO]), old(rate), old(audioEnabled)))
      ensures t == PausedToReady ==>
        (old(enableSrcTasks) ==>
          stream[VIDEO] == StoppedAndFlushed(old(stream[VIDEO]), true) &&
          stream[AUDIO] == StoppedAndFlushed(old(stream[AUDIO]), true) &&
          Ctl() == old(Ctl()).(flushing := false)) &&
        (!old(enableSrcTasks) ==> stream == old(stream) && Ctl() == old(Ctl()))
      ensures t in {PausedToPlaying, PlayingToPaused, ReadyToNull} ==>
        Ctl() == old(Ctl()) && stream == old(stream)
    {
      refused := false;
      match t {
        case NullToReady =>
          if !uriOk {
            return true;
          }
          state := StateTuning;
          playerCalls := playerCalls + [Tune];
        case ReadyToPaused =>
          if stream[VIDEO].hasSrcpad {
            stream := stream[VIDEO := stream[VIDEO].(streamStart := true, eventsPending := true)];
          }
          UpdateAudioSrcPad();
          state := StateReady;
        case PausedToReady =>
          if enableSrcTasks {
            StopAndFlush();
          }
        case _ =>
      }
    }

    /** The second switch of gst_aamp_change_state, once the parent class
        has answered `parentRet` (not a failure). */
    method AfterParent(t: Transition, progress: TuneProgress, parentRet: StateChangeReturn, live: bool)
      returns (ret: StateChangeReturn)
      requires Valid() && parentRet != Failure
      modifies this
      ensures Valid()
      ensures t == NullToReady ==>
        (Ctl(), stream) == TuneOutcome(old(Ctl()), old(stream), progress) &&
        (ret == Failure <==> Rank(state) < Rank(StateConfigured)) && (ret != Failure ==> ret == parentRet)
      ensures t == ReadyToPaused ==>
        ret == (if live then NoPreroll else parentRet) && Ctl() == old(Ctl()) && stream == old(stream)
      ensures t == PausedToReady ==>
        ret == parentRet && stream == old(stream) &&
        Ctl() == old(Ctl()).(state := StateShuttingDown, playerCalls := old(playerCalls) + [StopPlayback])
      ensures t in {PausedToPlaying, PlayingToPaused, ReadyToNull} ==>
        ret == parentRet && Ctl() == old(Ctl()) && stream == old(stream)
    {
      ret := parentRet;
      match t {
        case PausedToReady =>
          state := StateShuttingDown;
          playerCalls := playerCalls + [StopPlayback];
        case NullToReady =>
          // the wait in gst_aamp_configured ends once the core has moved on
          match progress {
            case ConfiguredBy(v, a, m) => Configure(v, a, m);
            case TuneFailedEvent => TuneFailed();
            case NoProgress =>
          }
          var configured := IsConfigured();
          if !configured {
            return Failure;
          }
        case ReadyToPaused =>
          if live {
            ret := NoPreroll;
          }
        case _ =>
      }
    }

    /** The flush part of a seek: with GST_SEEK_FLAG_FLUSH the element
        remembers the flush and stops and flushes every stream. */
    method SeekFlush(flushFlag: bool)
      requires Valid()
      modifies this
      ensures Valid()
      ensures Ctl() == old(Ctl()).(seekFlush := old(seekFlush) || flushFlag,
                                   flushing := if flushFlag then false else old(flushing))
      ensures stream[VIDEO] == (if flushFlag then StoppedAndFlushed(old(stream[VIDEO]), old(enableSrcTasks)) else old(stream[VIDEO]))
      ensures stream[AUDIO] == (if flushFlag then StoppedAndFlushed(old(stream[AUDIO]), old(enableSrcTasks)) else old(stream[AUDIO]))
    {
      if flushFlag {
        seekFlush := true;
        StopAndFlush();
      }
    }

    /** The rate part of a seek: a new rate goes to the streamer and the
        element, then the player gets the rate (and the position of a SET
        seek). */
    method SeekRate(newRate: real, startType: SeekType, start: int, stop: int)
      requires IsI64(start) && IsI64(stop)
      modifies this
      ensures stream == old(stream)
      ensures Ctl() == old(Ctl()).(
          rate := newRate,
          streamerRate := if newRate != old(rate) then newRate else old(streamerRate),
          playerCalls := old(playerCalls) + SeekCalls(newRate, startType, start, stop))
    {
      if newRate != rate {
        streamerRate := newRate;   // GstAampStreamer::UpdateRate
        rate := newRate;
      }
      playerCalls := playerCalls + SeekCalls(newRate, startType, start, stop);
    }

    /** A SET seek un-pauses every stream so that the data of the new
        position flows again. */
    method ResumeAll()
      requires Valid()
      modifies this
      ensures Valid()
      ensures Ctl() == old(Ctl())
      ensures stream[VIDEO] == old(stream[VIDEO]).(flow := old(stream[VIDEO]).flow.(isPaused := false))
      ensures stream[AUDIO] == old(stream[AUDIO]).(flow := old(stream[AUDIO]).flow.(isPaused := false))
    {
      var streams := stream;
      streams := streams[VIDEO := streams[VIDEO].(flow := streams[VIDEO].flow.(isPaused := false))];
      streams := streams[AUDIO := streams[AUDIO].(flow := streams[AUDIO].flow.(isPaused := false))];
      stream := streams;
    }

    /** The seek branch of gst_aamp_src_event.  Only TIME seeks are handled
        (otherwise the event goes to the default handler: `handled` false). */
    method Seek(newRate: real, timeFormat: bool, flushFlag: bool, startType: SeekType,
                start: int, stop: int) returns (handled: bool)
      requires Valid() && IsI64(start) && IsI64(stop)
      modifies this
      ensures Valid()
      ensures handled == timeFormat
      ensures !timeFormat ==> Ctl() == old(Ctl()) && stream == old(stream)
      ensures timeFormat ==>
        Ctl() == old(Ctl()).(
          seekFlush := old(seekFlush) || flushFlag,
          flushing := if flushFlag then false else old(flushing),
          rate := newRate,
          streamerRate := if newRate != old(rate) then newRate else old(streamerRate),
          playerCalls := old(playerCalls) + SeekCalls(newRate, startType, start, stop))
      ensures timeFormat ==>
        stream[VIDEO] == SeekedStream(old(stream[VIDEO]), flushFlag, old(enableSrcTasks), startType) &&
        stream[AUDIO] == SeekedStream(old(stream[AUDIO]), flushFlag, old(enableSrcTasks), startType)
    {
      if !timeFormat {
        return false;
      }
      SeekFlush(flushFlag);
      SeekRate(newRate, startType, start, stop);
      if startType == SeekSet {
        ResumeAll();
      }
      handled := true;
    }
  }
}
