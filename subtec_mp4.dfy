/** The subtitle MP4 unwrapper (gst_subtec/gstsubtecmp4transform.cpp): a
    linear walk over ISO BMFF boxes (section 4.2 of ISO/IEC 14496-12) that
    finds a box by name, the in-place transform that drops initialisation
    segments and keeps only the `mdat` payload of media segments, and the
    caps mapping between MP4 and the text formats it carries. */
module SubtecMp4 {
  import opened Common

  // ---------------------------------------------------------------------
  // Box header fields.
  // ---------------------------------------------------------------------

  /** parse32: the big-endian 32-bit size at `offset`; None where the source
      throws out_of_range because fewer than four bytes remain. */
  function Parse32(buf: seq<byte>, offset: nat): (r: Option<nat>)
    ensures r.None? <==> offset + 4 > |buf|
    ensures r.Some? ==> r.value < TWO_POW_32
  {
    if offset + 4 > |buf| then None else Some(U32Be(buf, offset))
  }

  /** A byte read through `static_cast<char>(b) & 0xFF`. */
  function Latin1(b: byte): char
  {
    (b as int) as char
  }

  predicate SingleByteChars(name: string)
  {
    forall k :: 0 <= k < |name| ==> name[k] as int < 0x100
  }

  /** The bytes of a name made of single-byte characters. */
  function NameBytes(name: string): (r: seq<byte>)
    requires SingleByteChars(name)
    ensures |r| == |name|
    ensures forall k :: 0 <= k < |name| ==> Latin1(r[k]) == name[k]
  {
    seq(|name|, k requires 0 <= k < |name| => name[k] as int as byte)
  }

  /** parseName: appends the four characters at `offset` to `value` and
      reports success; leaves `value` alone when fewer than four bytes
      remain. */
  function ParseName(buf: seq<byte>, offset: nat, value: string): (r: (bool, string))
    ensures r.0 <==> offset + 4 <= |buf|
    ensures !r.0 ==> r.1 == value
    ensures r.0 ==> |r.1| == |value| + 4 && r.1[..|value|] == value
    ensures r.0 ==> forall k :: |value| <= k < |r.1| ==> r.1[k] == Latin1(buf[offset + k - |value|])
  {
    if offset + 4 > |buf| then (false, value)
    else (true, value + [Latin1(buf[offset]), Latin1(buf[offset + 1]),
                         Latin1(buf[offset + 2]), Latin1(buf[offset + 3])])
  }

  /** The name the walk reads after a size field: the source starts from an
      empty string and ignores the result of parseName, so a truncated name
      reads as "". */
  function BoxNameAt(buf: seq<byte>, at: nat): (r: string)
    ensures at + 4 <= |buf| ==> |r| == 4
    ensures at + 4 > |buf| ==> r == ""
  {
    if at + 4 > |buf| then ""
    else [Latin1(buf[at]), Latin1(buf[at + 1]), Latin1(buf[at + 2]), Latin1(buf[at + 3])]
  }

  lemma BoxNameIsParsedName(buf: seq<byte>, at: nat)
    ensures BoxNameAt(buf, at) == ParseName(buf, at, "").1
  {
  }

  lemma {:induction false} Parse32Encoded(prefix: seq<byte>, size: nat, rest: seq<byte>)
    requires size < TWO_POW_32
    ensures Parse32(prefix + Be32(size) + rest, |prefix|) == Some(size)
  {
    var buf := prefix + Be32(size) + rest;
    var b := Be32(size);
    assert buf[|prefix|..|prefix| + 4] == b;
    assert forall k :: 0 <= k < 4 ==> buf[|prefix| + k] == b[k];
    assert U32Be(buf, |prefix|) == U32Be(b, 0);
  }

  lemma {:induction false} ParseNameEncoded(prefix: seq<byte>, name: string, rest: seq<byte>)
    requires |name| == 4 && SingleByteChars(name)
    ensures BoxNameAt(prefix + NameBytes(name) + rest, |prefix|) == name
  {
    var buf := prefix + NameBytes(name) + rest;
    var r := ParseName(buf, |prefix|, "");
    assert r.0;
    forall k | 0 <= k < 4
      ensures r.1[k] == name[k]
    {
      assert buf[|prefix| + k] == NameBytes(name)[k];
    }
  }

  // ---------------------------------------------------------------------
  // The box walk (findBoxOffsetAndLength).
  // ---------------------------------------------------------------------

  const CONTAINER_NAMES: seq<string> := ["moov", "trak", "mdia", "minf", "dinf", "stbl", "mvex"]

  /** isContainer: the boxes the walk descends into. */
  predicate IsContainer(name: string)
  {
    name in CONTAINER_NAMES
  }

  /** Exactly seven box types are containers, and neither of the two the
      transform looks for is one. */
  lemma ContainersExactly(name: string)
    ensures IsContainer(name) <==> name == "moov" || name == "trak" || name == "mdia" || name == "minf"
                                   || name == "dinf" || name == "stbl" || name == "mvex"
    ensures !IsContainer("ftyp") && !IsContainer("mdat")
  {
  }

  /** A box the walk stops at: where its header starts and its declared
      size, header included. */
  datatype Box = Box(start: nat, size: nat)

  /** Where the walk goes after the box starting at `start`: past the 8-byte
      header of a container, past the whole box otherwise.  A declared size
      of 0 stands for a box that runs to the end of the buffer. */
  function NextOffset(buf: seq<byte>, start: nat): (r: nat)
    requires start + 4 <= |buf|
    ensures r > start
    ensures IsContainer(BoxNameAt(buf, start + 4)) ==> r == start + 8
  {
    var size := Parse32(buf, start).value;
    if IsContainer(BoxNameAt(buf, start + 4)) then start + 8
    else if size == 0 then |buf|
    else start + size
  }

  /** The step exactly as the source takes it, in size_t arithmetic:
      `offset += 4` after the size field, then `offset += 4` for a container
      or `offset += boxSize - 4` otherwise. */
  function NextOffsetAsWritten(buf: seq<byte>, start: nat): (r: nat)
    requires start + 4 <= |buf|
    ensures IsU64(r)
  {
    var size := Parse32(buf, start).value;
    var offset := Wrap64(start + 4);
    if IsContainer(BoxNameAt(buf, start + 4)) then Wrap64(offset + 4)
    else Wrap64(offset + Wrap64(size - 4))
  }

  /** The walk from `start` for a box named `name`. */
  function WalkFrom(buf: seq<byte>, name: string, start: nat): (r: Option<Box>)
    ensures r.Some? ==> start <= r.value.start && r.value.start + 4 <= |buf|
    ensures r.Some? ==> Parse32(buf, r.value.start) == Some(r.value.size)
    ensures r.Some? ==> BoxNameAt(buf, r.value.start + 4) == name
    ensures r.Some? && name != "" ==> r.value.start + 8 <= |buf|
    decreases |buf| - start
  {
    if start + 4 > |buf| then None
    else if BoxNameAt(buf, start + 4) == name then Some(Box(start, Parse32(buf, start).value))
    else WalkFrom(buf, name, NextOffset(buf, start))
  }

  function FindBox(buf: seq<byte>, name: string): Option<Box>
  {
    WalkFrom(buf, name, 0)
  }

  /** The as-written step agrees with NextOffset except on a non-container
      box of declared size 0, where it comes back to the same box. */
  lemma NextOffsetAsWrittenAgrees(buf: seq<byte>, start: nat)
    requires start + 4 <= |buf| <= TWO_POW_32
    ensures var size := Parse32(buf, start).value;
      if size == 0 && !IsContainer(BoxNameAt(buf, start + 4))
      then NextOffsetAsWritten(buf, start) == start
      else NextOffsetAsWritten(buf, start) == NextOffset(buf, start)
  {
    var size := Parse32(buf, start).value;
    assert Wrap64(start + 4) == start + 4;
    if !IsContainer(BoxNameAt(buf, start + 4)) {
      if size < 4 {
        assert Wrap64(size - 4) == size - 4 + TWO_POW_64;
        WrapOnce(start + size);
      }
    }
  }

  lemma WrapOnce(x: nat)
    requires x < TWO_POW_64
    ensures Wrap64(x + TWO_POW_64) == x
  {
  }

  /** A buffer holding one empty `free` box of declared size 0. */
  const ZERO_SIZE_BOX: seq<byte> := [0, 0, 0, 0, 0x66, 0x72, 0x65, 0x65]

  /** The walk as written never leaves a size-0 box that is not the one
      sought: the step brings it back to the same offset, so looking for
      `mdat` in ZERO_SIZE_BOX loops forever. */
  lemma ZeroSizeBoxSpins()
    ensures Parse32(ZERO_SIZE_BOX, 0) == Some(0)
    ensures BoxNameAt(ZERO_SIZE_BOX, 4) == "free" != "mdat"
    ensures NextOffsetAsWritten(ZERO_SIZE_BOX, 0) == 0
    ensures NextOffset(ZERO_SIZE_BOX, 0) == |ZERO_SIZE_BOX|
  {
    assert BoxNameAt(ZERO_SIZE_BOX, 4) == "free";
    NextOffsetAsWrittenAgrees(ZERO_SIZE_BOX, 0);
  }

  /** The box a buffer starts with is found when its name is sought. */
  lemma {:induction false} FindsLeadingBox(size: nat, name: string, rest: seq<byte>)
    requires size < TWO_POW_32
    requires |name| == 4 && SingleByteChars(name)
    ensures FindBox(Be32(size) + NameBytes(name) + rest, name) == Some(Box(0, size))
  {
    var buf := Be32(size) + NameBytes(name) + rest;
    assert buf == [] + Be32(size) + (NameBytes(name) + rest);
    Parse32Encoded([], size, NameBytes(name) + rest);
    ParseNameEncoded(Be32(size), name, rest);
  }

  /** A leading box with another, non-container name is skipped whole: the
      search continues at the end of its declared size. */
  lemma {:induction false} SkipsLeadingBox(size: nat, other: string, body: seq<byte>, rest: seq<byte>, name: string)
    requires |other| == 4 && SingleByteChars(other)
    requires other != name && !IsContainer(other)
    requires size == 8 + |body| < TWO_POW_32
    ensures FindBox(Be32(size) + NameBytes(other) + body + rest, name)
         == WalkFrom(Be32(size) + NameBytes(other) + body + rest, name, size)
  {
    var buf := Be32(size) + NameBytes(other) + body + rest;
    assert buf == [] + Be32(size) + (NameBytes(other) + body + rest);
    Parse32Encoded([], size, NameBytes(other) + body + rest);
    assert buf == Be32(size) + NameBytes(other) + (body + rest);
    ParseNameEncoded(Be32(size), other, body + rest);
    assert NextOffset(buf, 0) == size;
  }

  /** A leading container is entered: the search continues at its first
      child, right after its header. */
  lemma {:induction false} EntersLeadingContainer(size: nat, container: string, rest: seq<byte>, name: string)
    requires container in CONTAINER_NAMES && container != name
    requires size < TWO_POW_32
    ensures FindBox(Be32(size) + NameBytes(container) + rest, name)
         == WalkFrom(Be32(size) + NameBytes(container) + rest, name, 8)
  {
    var buf := Be32(size) + NameBytes(container) + rest;
    assert buf == [] + Be32(size) + (NameBytes(container) + rest);
    Parse32Encoded([], size, NameBytes(container) + rest);
    ParseNameEncoded(Be32(size), container, rest);
  }

  /** findBoxOffsetAndLength: on success, the offset just past the header
      of the first box named `name` and that box's declared size. */
  method FindBoxOffsetAndLength(buf: array<byte>, name: string)
    returns (found: bool, boxOffset: nat, boxLength: nat)
    ensures found <==> FindBox(buf[..], name).Some?
    ensures found ==> boxOffset == FindBox(buf[..], name).value.start + 8
    ensures found ==> boxLength == FindBox(buf[..], name).value.size
  {
    found, boxOffset, boxLength := false, 0, 0;
    var offset: nat := 0;
    while offset < buf.Length
      invariant WalkFrom(buf[..], name, offset) == FindBox(buf[..], name)
      decreases buf.Length - offset
    {
      var size := Parse32(buf[..], offset);
      if size.None? {
        return;
      }
      var boxSize := size.value;
      ghost var start := offset;
      offset := offset + 4;
      var (_, boxName) := ParseName(buf[..], offset, "");
      BoxNameIsParsedName(buf[..], offset);
      if boxName == name {
        found, boxOffset, boxLength := true, offset + 4, boxSize;
        return;
      }
      if IsContainer(boxName) {
        offset := offset + 4;
      } else if boxSize == 0 {
        offset := buf.Length;
      } else {
        offset := offset + boxSize - 4;
      }
      assert offset == NextOffset(buf[..], start);
    }
  }

  // ---------------------------------------------------------------------
  // transform_ip.
  // ---------------------------------------------------------------------

  /** The end of the bytes the source copies out of an `mdat` box:
      `length` bytes from the end of its header, `length` being the declared
      size, header included. */
  function CopyEndAsWritten(box: Box): nat
  {
    box.start + 8 + box.size
  }

  /** The copy as written always reads 8 bytes past the end of the box. */
  lemma CopyEndPassesBox(box: Box)
    ensures CopyEndAsWritten(box) == box.start + box.size + 8
  {
  }

  /** A buffer that is one `mdat` box holding `payload`. */
  function MdatOnly(payload: seq<byte>): seq<byte>
    requires 8 + |payload| < TWO_POW_32
  {
    Be32(8 + |payload|) + NameBytes("mdat") + payload
  }

  /** For a media segment that ends with its `mdat` box (here: that is only
      an `mdat` box) the copy as written reads 8 bytes past the mapped
      buffer. */
  lemma MdatCopyOverreads(payload: seq<byte>)
    requires 8 + |payload| < TWO_POW_32
    ensures FindBox(MdatOnly(payload), "ftyp").None?
    ensures FindBox(MdatOnly(payload), "mdat") == Some(Box(0, 8 + |payload|))
    ensures CopyEndAsWritten(FindBox(MdatOnly(payload), "mdat").value) == |MdatOnly(payload)| + 8
  {
    var buf := MdatOnly(payload);
    FindsLeadingBox(8 + |payload|, "mdat", payload);
    SkipsLeadingBox(8 + |payload|, "mdat", payload, [], "ftyp");
    assert buf + [] == buf;
  }

  /** The payload of an `mdat` box: the bytes after its header up to its
      declared end, or up to the end of the buffer for size 0 or a box
      that overruns the buffer. */
  function MdatPayload(buf: seq<byte>, box: Box): (r: seq<byte>)
    requires box.start + 8 <= |buf|
    ensures box.start + 8 + |r| <= |buf| && r == buf[box.start + 8 .. box.start + 8 + |r|]
    ensures 8 <= box.size && box.start + box.size <= |buf| ==> |r| == box.size - 8
    ensures box.size == 0 || box.start + box.size > |buf| ==> box.start + 8 + |r| == |buf|
  {
    var end := if box.size == 0 || box.start + box.size > |buf| then |buf| else box.start + box.size;
    if end < box.start + 8 then [] else buf[box.start + 8 .. end]
  }

  /** The payload of a buffer that is one `mdat` box is what it holds. */
  lemma MdatOnlyPayload(payload: seq<byte>)
    requires 8 + |payload| < TWO_POW_32
    ensures MdatPayload(MdatOnly(payload), Box(0, 8 + |payload|)) == payload
  {
    var buf := MdatOnly(payload);
    assert buf[8..] == payload;
  }

  datatype TransformReturn = FlowOk | Dropped

  /** memcpy(data, data + from, n), which copies forwards, so the overlap
      of the source and destination ranges does no harm. */
  method MoveToFront(data: array<byte>, from: nat, n: nat)
    requires from + n <= data.Length
    modifies data
    ensures data[..n] == old(data[from..from + n])
    ensures data[n..] == old(data[n..])
  {
    var k := 0;
    while k < n
      invariant 0 <= k <= n
      invariant data[..k] == old(data[from..from + k])
      invariant data[k..] == old(data[k..])
    {
      data[k] := data[from + k];
      assert data[..k + 1] == data[..k] + [data[k]];
      k := k + 1;
    }
  }

  /** transform_ip: an initialisation segment (one with an `ftyp` box) is
      dropped; a media segment is cut down, in place, to its `mdat`
      payload; anything else passes unchanged.  `size` is the buffer size
      after gst_buffer_resize. */
  method TransformIp(data: array<byte>) returns (ret: TransformReturn, size: nat)
    modifies data
    ensures size <= data.Length
    ensures FindBox(old(data[..]), "ftyp").Some? ==>
      ret == Dropped && size == data.Length && data[..] == old(data[..])
    ensures FindBox(old(data[..]), "ftyp").None? && FindBox(old(data[..]), "mdat").Some? ==>
      ret == FlowOk && data[..size] == MdatPayload(old(data[..]), FindBox(old(data[..]), "mdat").value)
    ensures FindBox(old(data[..]), "ftyp").None? && FindBox(old(data[..]), "mdat").None? ==>
      ret == FlowOk && size == data.Length && data[..] == old(data[..])
  {
    var ftyp, offset, length := FindBoxOffsetAndLength(data, "ftyp");
    if ftyp {
      return Dropped, data.Length;
    }
    var mdat;
    mdat, offset, length := FindBoxOffsetAndLength(data, "mdat");
    if !mdat {
      return FlowOk, data.Length;
    }
    ghost var box := FindBox(data[..], "mdat").value;
    var end := if length == 0 || offset - 8 + length > data.Length then data.Length else offset - 8 + length;
    size := if end < offset then 0 else end - offset;
    assert data[offset .. offset + size] == MdatPayload(data[..], box);
    MoveToFront(data, offset, size);
    ret := FlowOk;
  }

  // ---------------------------------------------------------------------
  // transform_caps (name mapping; the filter intersection is left out).
  // ---------------------------------------------------------------------

  const MP4_MEDIA_TYPE: string := "application/mp4"
  const TTML_MEDIA_TYPE: string := "application/ttml+xml"
  const VTT_MEDIA_TYPE: string := "text/vtt"
  const VIPER_FORMAT_FIELD: string := "viper_ttml_format"

  /** The caps on the other pad, decided by the first structure of `caps`:
      TTML asked for on the src pad needs MP4 on the sink pad; MP4 on the
      sink pad gives TTML, keeping `viper_ttml_format`; WebVTT stays
      WebVTT; anything else is copied.  Caps without a first structure
      (empty or ANY) have no name to match, so they are copied too. */
  function Mp4TransformCaps(dir: PadDirection, caps: seq<Structure>): (r: seq<Structure>)
    ensures |r| == 1 || r == caps
    ensures |caps| == 0 ==> r == caps
    ensures dir == SrcPad && |caps| > 0 && caps[0].name == TTML_MEDIA_TYPE ==> r == [Structure(MP4_MEDIA_TYPE, map[])]
    ensures dir == SrcPad && |caps| > 0 && caps[0].name != TTML_MEDIA_TYPE ==> r == caps
    ensures dir == SinkPad && |caps| > 0 && caps[0].name == MP4_MEDIA_TYPE ==>
      |r| == 1 && r[0].name == TTML_MEDIA_TYPE && r[0].fields.Keys <= {VIPER_FORMAT_FIELD}
      && (VIPER_FORMAT_FIELD in caps[0].fields <==> VIPER_FORMAT_FIELD in r[0].fields)
      && (VIPER_FORMAT_FIELD in r[0].fields ==> r[0].fields[VIPER_FORMAT_FIELD] == caps[0].fields[VIPER_FORMAT_FIELD])
    ensures dir == SinkPad && |caps| > 0 && caps[0].name == VTT_MEDIA_TYPE ==> r == [Structure(VTT_MEDIA_TYPE, map[])]
    ensures |caps| > 0 && caps[0].name !in {MP4_MEDIA_TYPE, TTML_MEDIA_TYPE, VTT_MEDIA_TYPE} ==> r == caps
  {
    if |caps| == 0 then caps
    else
      var s := caps[0];
      match dir
      case SrcPad =>
        if s.name == TTML_MEDIA_TYPE then [Structure(MP4_MEDIA_TYPE, map[])] else caps
      case SinkPad =>
        if s.name == MP4_MEDIA_TYPE then
          var fields := if VIPER_FORMAT_FIELD in s.fields then map[VIPER_FORMAT_FIELD := s.fields[VIPER_FORMAT_FIELD]] else map[];
          [Structure(TTML_MEDIA_TYPE, fields)]
        else if s.name == VTT_MEDIA_TYPE then [Structure(VTT_MEDIA_TYPE, map[])]
        else caps
  }

  /** The two directions are inverse on media types: the TTML caps offered
      downstream for MP4 map back upstream to MP4. */
  lemma CapsRoundTrip(caps: seq<Structure>)
    requires |caps| > 0 && caps[0].name == MP4_MEDIA_TYPE
    ensures Mp4TransformCaps(SrcPad, Mp4TransformCaps(SinkPad, caps)) == [Structure(MP4_MEDIA_TYPE, map[])]
  {
  }
}
