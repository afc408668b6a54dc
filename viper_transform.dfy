/** The Viper TTML transform (gst_subtec/gstvipertransform.cpp): a
    classifier that learns, from the first buffers of a stream, whether the
    TTML cue times line up with the buffer timestamps, carry a fixed linear
    offset, or come as several concatenated documents per buffer (the
    Harmonic UHD case); and the transform that splits and retimestamps the
    concatenated documents or tags buffers with the learnt offset.

    A TTML buffer is modelled as a string of single-byte characters, the
    std::string the source builds from the mapped bytes. */
module ViperTransform {
  import opened Common

  // ---------------------------------------------------------------------
  // Scanning the TTML text.
  // ---------------------------------------------------------------------

  /** findTag: the text between the first `tag="` at or after `from` and
      the following `"`, its position and its length; ("", npos, 0) when
      the opener is absent.  With no closing quote the length is
      npos - position and the text runs to the end. */
  function FindTag(s: string, tag: string, from: nat): (r: (string, int, int))
    requires |s| < NPOS
    ensures var opener := tag + "=\"";
      match Find(s, opener, from)
      case None => r == ("", NPOS, 0)
      case Some(at) =>
        r.1 == at + |opener| && r.1 + |r.0| <= |s| && r.0 == s[r.1 .. r.1 + |r.0|]
        && (forall c <- r.0 :: c != '"')
        && (r.1 + |r.0| == |s| || s[r.1 + |r.0|] == '"')
  {
    var opener := tag + "=\"";
    match Find(s, opener, from)
    case None => ("", NPOS, 0)
    case Some(at) =>
      var pos := at + |opener|;
      var endpos := match FindChar(s, '"', pos) case Some(e) => e case None => NPOS;
      var len := endpos - pos;
      assert forall i :: pos <= i < pos + len && i < |s| ==> s[i] != '"';
      (Substr(s, pos, len), pos, len)
  }

  /** A tag written as `tag="value"` at the start of a document is read
      back whole. */
  lemma FindTagReadsValue(tag: string, value: string, rest: string)
    requires forall c <- value :: c != '"'
    requires |tag + "=\"" + value + "\"" + rest| < NPOS
    ensures FindTag(tag + "=\"" + value + "\"" + rest, tag, 0) == (value, |tag| + 2, |value|)
  {
    var opener := tag + "=\"";
    var s := opener + value + "\"" + rest;
    assert s == tag + "=\"" + value + "\"" + rest;
    assert s[0..|opener|] == opener;
    assert Find(s, opener, 0) == Some(0);
    var pos := |opener|;
    assert s[pos + |value|] == '"';
    forall i | pos <= i < pos + |value|
      ensures s[i] != '"'
    {
      assert s[i] == (opener + value + "\"")[i];
      assert s[i] == (opener + value)[i] == value[i - pos];
      assert value[i - pos] in value;
    }
    assert FindChar(s, '"', pos) == Some(pos + |value|);
    assert s[pos..pos + |value|] == value;
  }

  /** findFirstBegin: the time of the first `begin` attribute, converted by
      `toMs` (the source's convertTime, which parses hours, minutes and
      floating-point seconds with sscanf). */
  function FindFirstBegin(ttml: string, toMs: string -> int): (r: Option<int>)
    requires |ttml| < NPOS
    ensures r.Some? <==> Find(ttml, "begin=\"", 0).Some?
    ensures r.Some? ==> r.value == toMs(FindTag(ttml, "begin", 0).0)
  {
    assert "begin" + "=\"" == "begin=\"";
    var (contents, pos, _) := FindTag(ttml, "begin", 0);
    if pos != NPOS then Some(toMs(contents)) else None
  }

  const XML_MARKER: string := "<?xml"

  /** is_harmonic_uhd: a second `<?xml` is searched for from one past the
      first; a missing first marker is npos, and npos + 1 wraps to 0. */
  function IsHarmonicUhd(ttml: string): (r: bool)
    requires |ttml| < NPOS
  {
    var first := Find(ttml, XML_MARKER, 0);
    var from := match first case Some(i) => i + 1 case None => Wrap64(NPOS + 1);
    Find(ttml, XML_MARKER, from).Some?
  }

  /** A buffer is Harmonic UHD exactly when it holds two XML declarations. */
  lemma HarmonicIffTwoDocuments(ttml: string)
    requires |ttml| < NPOS
    ensures IsHarmonicUhd(ttml) <==>
      exists i, j :: 0 <= i < j && OccursAt(ttml, XML_MARKER, i) && OccursAt(ttml, XML_MARKER, j)
  {
    var first := Find(ttml, XML_MARKER, 0);
    assert Wrap64(NPOS + 1) == 0;
    if IsHarmonicUhd(ttml) {
      var from := match first case Some(i) => i + 1 case None => 0;
      var j := Find(ttml, XML_MARKER, from).value;
      assert OccursAt(ttml, XML_MARKER, first.value) && OccursAt(ttml, XML_MARKER, j);
    }
    if exists i, j :: 0 <= i < j && OccursAt(ttml, XML_MARKER, i) && OccursAt(ttml, XML_MARKER, j) {
      var i, j :| 0 <= i < j && OccursAt(ttml, XML_MARKER, i) && OccursAt(ttml, XML_MARKER, j);
      assert first.Some? && first.value <= i;
      assert Find(ttml, XML_MARKER, first.value + 1).Some?;
    }
  }

  // ---------------------------------------------------------------------
  // The content classifier (before_transform).
  // ---------------------------------------------------------------------

  /** ViperContentType. */
  datatype ContentType = Unknown | Passthrough | LinearOffset | LinearOffsetPrelim | HarmonicUhd

  /** What before_transform reads and writes: the content type, the learnt
      m_linear_begin_offset (a gint64, in ms) and the base class's
      passthrough flag. */
  datatype Classifier = Classifier(contentType: ContentType, linearBeginOffset: int, passthrough: bool)

  function Abs(x: int): nat
  {
    if x < 0 then -x else x
  }

  /** The gap between the first cue and the buffer PTS in ms:
      `first_begin_ms - (pts / GST_MSECOND)`, computed in guint64 and
      stored into a gint64. */
  function OffsetMs(firstBeginMs: int, pts: nat): (r: int)
    ensures IsI64(r)
    ensures IsI64(firstBeginMs - pts / GST_MSECOND) ==> r == firstBeginMs - pts / GST_MSECOND
  {
    AsI64(Wrap64(firstBeginMs - pts / GST_MSECOND))
  }

  /** The stored offset is replaced by `offset` when it is unset (0) or
      larger than |offset|. */
  predicate Closer(offset: int, stored: int)
  {
    stored == 0 || Abs(offset) < stored
  }

  /** The effect of before_transform on one readable buffer, given whether
      it is Harmonic UHD and the time of its first cue. */
  function Classify(c: Classifier, harmonic: bool, firstBeginMs: Option<int>, pts: nat, duration: nat): Classifier
  {
    if c.passthrough || c.contentType == LinearOffset then c
    else if c.contentType == Unknown && harmonic then c.(contentType := HarmonicUhd)
    else if firstBeginMs.None? then c
    else
      var offset := OffsetMs(firstBeginMs.value, pts);
      if c.contentType == Unknown then
        if Abs(offset) > duration / GST_MSECOND then
          Classifier(LinearOffsetPrelim, if Closer(offset, c.linearBeginOffset) then offset else c.linearBeginOffset, false)
        else
          c.(contentType := Passthrough, passthrough := true)
      else if c.contentType == LinearOffsetPrelim then
        if Closer(offset, c.linearBeginOffset) then c.(linearBeginOffset := offset)
        else if offset == c.linearBeginOffset then c.(contentType := LinearOffset)
        else c
      else c
  }

  /** The transitions of ViperContentType, as an independent table. */
  function Successors(t: ContentType): set<ContentType>
  {
    match t
    case Unknown => {Unknown, HarmonicUhd, LinearOffsetPrelim, Passthrough}
    case LinearOffsetPrelim => {LinearOffsetPrelim, LinearOffset}
    case _ => {t}
  }

  /** Every step follows the table; passthrough is switched on only by the
      move to PASSTHROUGH and never off; LINEAR_OFFSET is reached only
      from LINEAR_OFFSET_PRELIM on a buffer whose offset equals the stored
      one. */
  lemma ClassifyFollowsTable(c: Classifier, harmonic: bool, firstBeginMs: Option<int>, pts: nat, duration: nat)
    ensures var n := Classify(c, harmonic, firstBeginMs, pts, duration);
      && n.contentType in Successors(c.contentType)
      && (c.passthrough ==> n.passthrough)
      && (n.passthrough && !c.passthrough ==> n.contentType == Passthrough)
      && (n.contentType == LinearOffset && c.contentType != LinearOffset ==>
            c.contentType == LinearOffsetPrelim && firstBeginMs.Some?
            && OffsetMs(firstBeginMs.value, pts) == c.linearBeginOffset)
  {
  }

  /** The stored offset changes only to one closer to the PTS, and only
      while the content type is being learnt. */
  lemma ClassifyOffsetCloser(c: Classifier, harmonic: bool, firstBeginMs: Option<int>, pts: nat, duration: nat)
    ensures var n := Classify(c, harmonic, firstBeginMs, pts, duration);
      n.linearBeginOffset != c.linearBeginOffset ==>
        && c.contentType in {Unknown, LinearOffsetPrelim} && !c.passthrough
        && n.contentType == LinearOffsetPrelim
        && firstBeginMs.Some? && n.linearBeginOffset == OffsetMs(firstBeginMs.value, pts)
        && Closer(n.linearBeginOffset, c.linearBeginOffset)
  {
  }

  /** One buffer seen by before_transform. */
  datatype Observation = Observation(harmonic: bool, firstBeginMs: Option<int>, pts: nat, duration: nat)

  function ClassifyAll(c: Classifier, obs: seq<Observation>): Classifier
    decreases |obs|
  {
    if obs == [] then c
    else
      var o := obs[0];
      ClassifyAll(Classify(c, o.harmonic, o.firstBeginMs, o.pts, o.duration), obs[1..])
  }

  /** Once settled (passthrough on, or the offset final) the classifier
      keeps its state for the rest of the stream, until a flush or new
      caps reset it. */
  lemma {:induction false} SettledStaysSettled(c: Classifier, obs: seq<Observation>)
    requires c.passthrough || c.contentType == LinearOffset
    ensures ClassifyAll(c, obs) == c
    decreases |obs|
  {
    if obs != [] {
      SettledStaysSettled(c, obs[1..]);
    }
  }

  /** A Harmonic UHD stream stays Harmonic UHD, whatever follows. */
  lemma {:induction false} HarmonicStaysHarmonic(c: Classifier, obs: seq<Observation>)
    requires c.contentType == HarmonicUhd
    ensures ClassifyAll(c, obs).contentType == HarmonicUhd
    decreases |obs|
  {
    if obs != [] {
      var o := obs[0];
      assert Classify(c, o.harmonic, o.firstBeginMs, o.pts, o.duration).contentType == HarmonicUhd;
      HarmonicStaysHarmonic(Classify(c, o.harmonic, o.firstBeginMs, o.pts, o.duration), obs[1..]);
    }
  }

  // ---------------------------------------------------------------------
  // Splitting concatenated documents (transform, HARMONIC_UHD).
  // ---------------------------------------------------------------------

  /** The documents from the declaration at `start` on: each runs up to the
      next declaration, the last to the end of the buffer. */
  function DocsAt(ttml: string, start: nat): (r: seq<string>)
    requires OccursAt(ttml, XML_MARKER, start)
    ensures |r| > 0
    decreases |ttml| - start
  {
    match Find(ttml, XML_MARKER, start + 1)
    case None => [ttml[start..]]
    case Some(e) => [ttml[start..e]] + DocsAt(ttml, e)
  }

  /** The documents of a buffer; none when it holds no declaration. */
  function Docs(ttml: string): seq<string>
  {
    match Find(ttml, XML_MARKER, 0)
    case None => []
    case Some(s) => DocsAt(ttml, s)
  }

  function Concat(docs: seq<string>): string
  {
    if docs == [] then [] else docs[0] + Concat(docs[1..])
  }

  /** Joining the documents gives back the buffer from its first
      declaration on. */
  lemma {:induction false} DocsAtJoin(ttml: string, start: nat)
    requires OccursAt(ttml, XML_MARKER, start)
    ensures Concat(DocsAt(ttml, start)) == ttml[start..]
    decreases |ttml| - start
  {
    match Find(ttml, XML_MARKER, start + 1)
    case None =>
      assert DocsAt(ttml, start) == [ttml[start..]];
      assert Concat([ttml[start..]]) == ttml[start..] + Concat([]);
    case Some(e) =>
      var rest := DocsAt(ttml, e);
      assert DocsAt(ttml, start) == [ttml[start..e]] + rest;
      assert ([ttml[start..e]] + rest)[1..] == rest;
      DocsAtJoin(ttml, e);
      assert ttml[start..] == ttml[start..e] + ttml[e..];
  }

  /** Two declarations never overlap. */
  lemma MarkersApart(ttml: string, i: nat, j: nat)
    requires i < j && OccursAt(ttml, XML_MARKER, i) && OccursAt(ttml, XML_MARKER, j)
    ensures i + 5 <= j
  {
    assert ttml[j] == XML_MARKER[0];
  }

  /** A document: it starts with a declaration and holds no other. */
  predicate SingleDoc(d: string)
  {
    OccursAt(d, XML_MARKER, 0) && forall i :: 0 < i < |d| ==> !OccursAt(d, XML_MARKER, i)
  }

  /** The text from one declaration up to the next (or the end) is a
      single document. */
  lemma CutIsSingle(ttml: string, start: nat, last: nat)
    requires OccursAt(ttml, XML_MARKER, start) && start < last <= |ttml|
    requires last < |ttml| ==> OccursAt(ttml, XML_MARKER, last)
    requires forall i :: start + 1 <= i < last ==> !OccursAt(ttml, XML_MARKER, i)
    ensures SingleDoc(ttml[start..last])
  {
    var d := ttml[start..last];
    if last < |ttml| {
      MarkersApart(ttml, start, last);
    }
    assert start + 5 <= last;
    assert d[0..5] == ttml[start..start + 5];
    forall i | 0 < i
      ensures !OccursAt(d, XML_MARKER, i)
    {
      if i + 5 <= |d| {
        SliceOfSlice(ttml, start, last, i, i + 5);
      }
      assert OccursAt(d, XML_MARKER, i) ==> OccursAt(ttml, XML_MARKER, start + i);
    }
  }

  /** Every document starts with the declaration and holds no other. */
  lemma {:induction false} DocsAtSingle(ttml: string, start: nat)
    requires OccursAt(ttml, XML_MARKER, start)
    ensures forall d <- DocsAt(ttml, start) :: SingleDoc(d)
    decreases |ttml| - start
  {
    DocsAtStep(ttml, start);
    match Find(ttml, XML_MARKER, start + 1)
    case None =>
      assert ttml[start..] == ttml[start..|ttml|];
      CutIsSingle(ttml, start, |ttml|);
    case Some(e) =>
      CutIsSingle(ttml, start, e);
      DocsAtSingle(ttml, e);
  }

  /** The split yields at least two documents exactly for a Harmonic UHD
      buffer, and none for a buffer without a declaration. */
  lemma DocsCount(ttml: string)
    requires |ttml| < NPOS
    ensures Docs(ttml) == [] <==> Find(ttml, XML_MARKER, 0).None?
    ensures IsHarmonicUhd(ttml) ==> |Docs(ttml)| >= 2
  {
    assert Wrap64(NPOS + 1) == 0;
    match Find(ttml, XML_MARKER, 0)
    case None =>
    case Some(s) =>
      if IsHarmonicUhd(ttml) {
        var e := Find(ttml, XML_MARKER, s + 1).value;
        assert DocsAt(ttml, s) == [ttml[s..e]] + DocsAt(ttml, e);
      }
  }

  /** The cut the source makes, `substr(start_pos, end_pos)`: end_pos is
      passed where substr expects a length. */
  function DocsAtAsWritten(ttml: string, start: nat): (r: seq<string>)
    requires OccursAt(ttml, XML_MARKER, start)
    ensures |r| > 0
    decreases |ttml| - start
  {
    match Find(ttml, XML_MARKER, start + 1)
    case None => [Substr(ttml, start, NPOS)]
    case Some(e) => [Substr(ttml, start, e)] + DocsAtAsWritten(ttml, e)
  }

  /** Three one-declaration documents. */
  const THREE_DOCS: string := XML_MARKER + XML_MARKER + XML_MARKER

  /** As written, the second of three documents runs on into the third,
      while the documents the split should push are the three
      declarations. */
  lemma SecondDocumentOverruns()
    ensures OccursAt(THREE_DOCS, XML_MARKER, 0)
    ensures |DocsAtAsWritten(THREE_DOCS, 0)| == 3 && DocsAtAsWritten(THREE_DOCS, 0)[1] == "<?xml<?xml"
    ensures DocsAt(THREE_DOCS, 0) == ["<?xml", "<?xml", "<?xml"]
  {
    var t := THREE_DOCS;
    assert |t| == 15;
    assert t[0..5] == XML_MARKER && t[5..10] == XML_MARKER && t[10..15] == XML_MARKER;
    forall i | i in {1, 2, 3, 4, 6, 7, 8, 9, 11, 12, 13, 14}
      ensures !OccursAt(t, XML_MARKER, i)
    {
      assert t[i] != '<';
    }
    assert OccursAt(t, XML_MARKER, 5) && OccursAt(t, XML_MARKER, 10);
    var f1 := Find(t, XML_MARKER, 1);
    assert f1.Some? && f1.value in {1, 2, 3, 4, 5};
    var f6 := Find(t, XML_MARKER, 6);
    assert f6.Some? && f6.value in {6, 7, 8, 9, 10};
    var f11 := Find(t, XML_MARKER, 11);
    assert DocsAt(t, 10) == [t[10..]];
    assert DocsAt(t, 5) == [t[5..10]] + DocsAt(t, 10);
    assert DocsAt(t, 0) == [t[0..5]] + DocsAt(t, 5);
    assert DocsAtAsWritten(t, 10) == [Substr(t, 10, NPOS)];
    assert DocsAtAsWritten(t, 5) == [Substr(t, 5, 10)] + DocsAtAsWritten(t, 10);
    assert DocsAtAsWritten(t, 0) == [Substr(t, 0, 5)] + DocsAtAsWritten(t, 5);
    assert Substr(t, 5, 10) == t[5..15];
  }

  /** One document is cut off at a time; the next search, from the
      following declaration, finds that declaration. */
  lemma DocsAtStep(ttml: string, start: nat)
    requires OccursAt(ttml, XML_MARKER, start)
    ensures match Find(ttml, XML_MARKER, start + 1)
      case None => DocsAt(ttml, start) == [ttml[start..]]
      case Some(e) =>
        && start < e && DocsAt(ttml, start) == [ttml[start..e]] + DocsAt(ttml, e)
        && Find(ttml, XML_MARKER, e) == Some(e)
  {
  }

  /** The split loop of transform: one string per declaration. */
  method SplitDocs(ttml: string) returns (docs: seq<string>)
    ensures docs == Docs(ttml)
  {
    docs := [];
    var start := Find(ttml, XML_MARKER, 0);
    ghost var rest := Docs(ttml);
    while start.Some?
      invariant start.Some? ==> OccursAt(ttml, XML_MARKER, start.value) && rest == DocsAt(ttml, start.value)
      invariant start.None? ==> rest == []
      invariant docs + rest == Docs(ttml)
      decreases if start.Some? then |ttml| + 1 - start.value else 0
    {
      var s := start.value;
      var end := Find(ttml, XML_MARKER, s + 1);
      DocsAtStep(ttml, s);
      if end.Some? {
        docs := docs + [ttml[s..end.value]];
        rest := DocsAt(ttml, end.value);
        start := Find(ttml, XML_MARKER, end.value);
      } else {
        docs := docs + [ttml[s..]];
        rest := [];
        start := None;
      }
    }
  }

  // ---------------------------------------------------------------------
  // Retimestamping the split documents.
  // ---------------------------------------------------------------------

  /** `segment_duration` as the source computes it: the buffer duration
      shared among the documents or, when the duration is unknown, `count`
      seconds for each of the `count` documents (the pts is then reset to
      0); either way narrowed to a 32-bit int. */
  function SegmentDurationAsWritten(duration: nat, count: nat): int
    requires count > 0
  {
    NarrowToI32(if duration == CLOCK_TIME_NONE then count * GST_SECOND else duration / count)
  }

  /** The same without the narrowing, as a gint64 would hold it. */
  function SegmentDuration(duration: nat, count: nat): (r: nat)
    requires count > 0
    ensures duration != CLOCK_TIME_NONE ==> r * count <= duration
  {
    if duration == CLOCK_TIME_NONE then count * GST_SECOND
    else DivBounds(duration, count); duration / count
  }

  /** `pts + segment_count * segment_duration` with an int product, as
      written. */
  function PtsAsWritten(pts: nat, segmentDuration: int, k: nat): nat
  {
    Wrap64(pts + NarrowToI32(k * segmentDuration))
  }

  /** A six-second buffer holding two documents: the narrowed duration is
      negative, and the second document's PTS wraps around instead of
      lying three seconds after the first. */
  lemma SixSecondSegmentWraps()
    ensures SegmentDurationAsWritten(6 * GST_SECOND, 2) < 0
    ensures PtsAsWritten(0, SegmentDurationAsWritten(6 * GST_SECOND, 2), 1) > 6 * GST_SECOND
    ensures SegmentDuration(6 * GST_SECOND, 2) == 3 * GST_SECOND
  {
    assert 6 * GST_SECOND / 2 == 3_000_000_000;
    assert NarrowToI32(3_000_000_000) == 3_000_000_000 - TWO_POW_32;
    assert NarrowToI32(3_000_000_000 - TWO_POW_32) == 3_000_000_000 - TWO_POW_32;
  }

  /** A buffer pushed downstream: data, PTS, DTS, duration and offset. */
  datatype OutBuffer = OutBuffer(data: string, pts: nat, dts: nat, duration: nat, offset: nat)

  /** Buffer `k` of a split: PTS and DTS `k` segment durations after `pts`;
      its offset is the negated start time in ms, which the sink turns back
      into a positive offset. */
  function Retimed(doc: string, pts: nat, segmentDuration: nat, k: nat): OutBuffer
  {
    var t := RetimedPts(pts, segmentDuration, k);
    OutBuffer(doc, t, t, segmentDuration,
              Wrap64(0 - (pts / GST_MSECOND + (segmentDuration / GST_MSECOND) * k)))
  }

  function RetimedPts(pts: nat, segmentDuration: nat, k: nat): nat
  {
    Wrap64(pts + k * segmentDuration)
  }

  /** The split buffers tile the input buffer's time span: buffer k starts
      k segment durations after the input's PTS, starts where buffer k - 1
      ends, and ends within the input's duration. */
  lemma RetimedTiles(pts: nat, duration: nat, count: nat, k: nat)
    requires count > 0 && k < count && duration != CLOCK_TIME_NONE && pts + duration < TWO_POW_64
    ensures var sd := SegmentDuration(duration, count);
      && RetimedPts(pts, sd, k) == pts + k * sd
      && RetimedPts(pts, sd, k) + sd <= pts + duration
      && (k > 0 ==> RetimedPts(pts, sd, k) == RetimedPts(pts, sd, k - 1) + sd)
  {
    var sd := SegmentDuration(duration, count);
    TileArithmetic(sd, count, k);
    var a := k * sd;
    assert a + sd <= duration;
    RetimedPtsExact(pts, sd, k);
    if k > 0 {
      RetimedPtsExact(pts, sd, k - 1);
    }
  }

  lemma RetimedPtsExact(pts: nat, sd: nat, k: nat)
    requires pts + k * sd < TWO_POW_64
    ensures RetimedPts(pts, sd, k) == pts + k * sd
  {
  }

  lemma TileArithmetic(sd: nat, count: nat, k: nat)
    requires k < count
    ensures k * sd + sd <= sd * count
    ensures k > 0 ==> (k - 1) * sd + sd == k * sd
  {
    MulMonotone(k + 1, count, sd);
    assert (k + 1) * sd == k * sd + sd;
  }

  lemma MulMonotone(a: nat, b: nat, c: nat)
    requires a <= b
    ensures a * c <= b * c
  {
  }

  /** The buffers pushed for the documents of one input buffer.  With an
      unknown duration (a file source) timing restarts from 0. */
  function SplitBuffers(docs: seq<string>, pts: nat, duration: nat): (r: seq<OutBuffer>)
    requires |docs| > 0
    ensures |r| == |docs| && forall k :: 0 <= k < |r| ==> r[k].data == docs[k]
  {
    var start := if duration == CLOCK_TIME_NONE then 0 else pts;
    var sd := SegmentDuration(duration, |docs|);
    seq(|docs|, k requires 0 <= k < |docs| => Retimed(docs[k], start, sd, k))
  }

  /** The retimestamping loop of transform. */
  method Retime(docs: seq<string>, pts: nat, duration: nat) returns (pushed: seq<OutBuffer>)
    requires |docs| > 0
    ensures pushed == SplitBuffers(docs, pts, duration)
  {
    var start := pts;
    var segmentDuration: nat;
    if duration == CLOCK_TIME_NONE {
      segmentDuration := |docs| * GST_SECOND;
      start := 0;
    } else {
      segmentDuration := duration / |docs|;
    }
    pushed := [];
    for k := 0 to |docs|
      invariant pushed == seq(k, j requires 0 <= j < k => Retimed(docs[j], start, segmentDuration, j))
    {
      pushed := pushed + [Retimed(docs[k], start, segmentDuration, k)];
    }
  }

  // ---------------------------------------------------------------------
  // The element.
  // ---------------------------------------------------------------------

  const TTML_MEDIA_TYPE: string := "application/ttml+xml"

  datatype EventKind = FlushStart | FlushStop | OtherEvent

  /** What transform produces: an error when a buffer cannot be mapped;
      the split documents, pushed directly with the input dropped; or the
      output buffer, a copy of the input whose offset is set when
      `offset` holds a value. */
  datatype TransformResult =
    | MapError
    | Split(pushed: seq<OutBuffer>)
    | Copied(data: string, offset: Option<nat>)

  class Element {
    var contentType: ContentType
    var linearBeginOffset: int
    var searchFirstBegin: bool
    /** gst_base_transform_is_passthrough. */
    var passthrough: bool

    function State(): Classifier
      reads this
    {
      Classifier(contentType, linearBeginOffset, passthrough)
    }

    /** gst_vipertransform_init, which sets the content type; the other
        values are the header's default member initialisers.  The instance
        is zero-filled and those initialisers never run, so the search flag
        really starts FALSE; nothing reads it, and the offset is 0 either
        way. */
    constructor ()
      ensures contentType == Unknown && linearBeginOffset == 0 && searchFirstBegin && !passthrough
    {
      contentType := Unknown;
      linearBeginOffset := 0;
      searchFirstBegin := true;
      passthrough := false;
    }

    /** The sink-event hook: a flush forgets what was learnt; every event
        then goes to the base class, whose answer is returned. */
    method Event(kind: EventKind, parentResult: bool) returns (handled: bool)
      modifies this
      ensures handled == parentResult
      ensures kind != OtherEvent ==> contentType == Unknown && linearBeginOffset == 0
      ensures kind == OtherEvent ==> contentType == old(contentType) && linearBeginOffset == old(linearBeginOffset)
      ensures passthrough == old(passthrough) && searchFirstBegin == old(searchFirstBegin)
    {
      if kind == FlushStart || kind == FlushStop {
        contentType := Unknown;
        linearBeginOffset := 0;
      }
      handled := parentResult;
    }

    /** set_caps: anything but TTML passes through untouched; the offset
        is relearnt. */
    method SetCaps(capsName: string) returns (ok: bool)
      modifies this
      ensures ok
      ensures passthrough == (old(passthrough) || capsName != TTML_MEDIA_TYPE)
      ensures searchFirstBegin && linearBeginOffset == 0 && contentType == old(contentType)
    {
      if capsName != TTML_MEDIA_TYPE {
        passthrough := true;
      }
      searchFirstBegin := true;
      linearBeginOffset := 0;
      ok := true;
    }

    /** before_transform: classify the stream from one more buffer.  An
        unreadable buffer changes nothing. */
    method BeforeTransform(ttml: string, mapped: bool, pts: nat, duration: nat, toMs: string -> int)
      requires |ttml| < NPOS
      modifies this
      ensures mapped ==>
        State() == Classify(old(State()), IsHarmonicUhd(ttml), FindFirstBegin(ttml, toMs), pts, duration)
      ensures !mapped ==> State() == old(State())
      ensures searchFirstBegin == old(searchFirstBegin)
    {
      if passthrough {
        return;
      }
      if contentType == LinearOffset {
        return;
      }
      if !mapped {
        return;
      }
      if contentType == Unknown && IsHarmonicUhd(ttml) {
        contentType := HarmonicUhd;
        return;
      }
      var firstBegin := FindFirstBegin(ttml, toMs);
      if firstBegin.Some? {
        var offset := OffsetMs(firstBegin.value, pts);
        if contentType == Unknown {
          if Abs(offset) > duration / GST_MSECOND {
            contentType := LinearOffsetPrelim;
            if linearBeginOffset == 0 || Abs(offset) < linearBeginOffset {
              linearBeginOffset := offset;
            }
          } else {
            passthrough := true;
            contentType := Passthrough;
          }
        } else if contentType == LinearOffsetPrelim {
          if linearBeginOffset == 0 || Abs(offset) < linearBeginOffset {
            linearBeginOffset := offset;
          } else if offset == linearBeginOffset {
            contentType := LinearOffset;
          }
        }
      }
    }

    /** transform: split a Harmonic UHD buffer into its documents, pushed
        with their own timestamps; otherwise copy the buffer, tagging it
        with the learnt offset in the linear-offset states. */
    method Transform(inbuf: string, mapped: bool, pts: nat, duration: nat) returns (r: TransformResult)
      ensures !mapped ==> r == MapError
      ensures mapped && contentType == HarmonicUhd && Docs(inbuf) != [] ==>
        r == Split(SplitBuffers(Docs(inbuf), pts, duration))
      ensures mapped && contentType == HarmonicUhd && Docs(inbuf) == [] ==> r == Copied(inbuf, None)
      ensures mapped && contentType in {LinearOffset, LinearOffsetPrelim} ==>
        r == Copied(inbuf, Some(Wrap64(linearBeginOffset)))
      ensures mapped && contentType in {Unknown, Passthrough} ==> r == Copied(inbuf, None)
    {
      if !mapped {
        return MapError;
      }
      if contentType == HarmonicUhd {
        var docs := SplitDocs(inbuf);
        if docs == [] {
          return Copied(inbuf, None);
        }
        var pushed := Retime(docs, pts, duration);
        return Split(pushed);
      }
      if contentType == LinearOffset || contentType == LinearOffsetPrelim {
        return Copied(inbuf, Some(Wrap64(linearBeginOffset)));
      }
      return Copied(inbuf, None);
    }
  }

  /** The documents pushed for a Harmonic UHD buffer hold, in order, all of
      its text from the first declaration on. */
  lemma SplitKeepsText(inbuf: string)
    requires Docs(inbuf) != []
    ensures Concat(Docs(inbuf)) == inbuf[Find(inbuf, XML_MARKER, 0).value..]
  {
    DocsAtJoin(inbuf, Find(inbuf, XML_MARKER, 0).value);
  }
}
