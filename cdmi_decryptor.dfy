/** The CDMi decryptor element (drm/gst/gstaampcdmidecryptor.cpp): the
    subsample layout of a protected sample, the key gate in front of the
    DRM session, the decrypt-failure escalation and the caps rewriting
    into and out of application/x-cenc. */
module CdmiDecryptor {
  import opened Common

  /** DECRYPT_FAILURE_THRESHOLD. */
  const DECRYPT_FAILURE_THRESHOLD: nat := 5

  /** The range of the gushort decryptFailCount. */
  const TWO_POW_16: nat := 0x1_0000

  const PLAYREADY_PROTECTION_SYSTEM_ID: string := "9a04f079-9840-4286-ab92-e65be0885f95"
  const WIDEVINE_PROTECTION_SYSTEM_ID: string := "edef8ba9-79d6-4ace-a3c8-27dcd51d21ed"

  // ---------------------------------------------------------------------
  // Subsample layout (section 7.2 of ISO/IEC 23001-7): `clear` bytes left
  // in the clear, then `cipher` encrypted bytes, entry after entry.
  // ---------------------------------------------------------------------

  datatype Subsample = Subsample(clear: nat, cipher: nat)

  /** An entry whose counts fit the uint16 and uint32 fields of the blob. */
  predicate WellSized(s: Subsample)
  {
    s.clear < 0x1_0000 && s.cipher < TWO_POW_32
  }

  function Init<T>(s: seq<T>): seq<T>
    requires |s| > 0
  {
    s[..|s| - 1]
  }

  function Last<T>(s: seq<T>): T
    requires |s| > 0
  {
    s[|s| - 1]
  }

  /** Number of sample bytes the first `n` entries describe, clear and
      encrypted: the sample offset the copy loops reach after `n` entries. */
  function SpanTo(e: seq<Subsample>, n: nat): nat
    requires n <= |e|
  {
    if n == 0 then 0 else SpanTo(e, n - 1) + e[n - 1].clear + e[n - 1].cipher
  }

  /** Number of encrypted bytes the first `n` entries describe: the cbData
      the copy loops reach after `n` entries. */
  function CipherTo(e: seq<Subsample>, n: nat): nat
    requires n <= |e|
  {
    if n == 0 then 0 else CipherTo(e, n - 1) + e[n - 1].cipher
  }

  function Span(e: seq<Subsample>): nat
  {
    SpanTo(e, |e|)
  }

  /** The final cbData. */
  function CipherTotal(e: seq<Subsample>): nat
  {
    CipherTo(e, |e|)
  }

  /** Offset in the sample of the encrypted range of entry `n`. */
  function CipherStart(e: seq<Subsample>, n: nat): nat
    requires n < |e|
  {
    SpanTo(e, n) + e[n].clear
  }

  /** Where sample byte `k` sits in the contiguous cipher buffer of the
      first `n` entries, or None when it lies in a clear range or past
      them. */
  function CipherIndexTo(e: seq<Subsample>, n: nat, k: int): (r: Option<nat>)
    requires n <= |e|
    ensures r.Some? ==> r.value < CipherTo(e, n) && 0 <= k < SpanTo(e, n)
  {
    if n == 0 then None
    else if CipherStart(e, n - 1) <= k < CipherStart(e, n - 1) + e[n - 1].cipher then
      Some(CipherTo(e, n - 1) + k - CipherStart(e, n - 1))
    else CipherIndexTo(e, n - 1, k)
  }

  function CipherIndex(e: seq<Subsample>, k: int): Option<nat>
  {
    CipherIndexTo(e, |e|, k)
  }

  /** Whether sample byte `k` lies in one of the encrypted ranges. */
  predicate InCipher(e: seq<Subsample>, k: int)
  {
    CipherIndex(e, k).Some?
  }

  lemma {:induction false} CipherWithinSpan(e: seq<Subsample>, n: nat)
    requires n <= |e|
    ensures CipherTo(e, n) <= SpanTo(e, n)
  {
    if n > 0 {
      CipherWithinSpan(e, n - 1);
    }
  }

  lemma {:induction false} SpanMonotone(e: seq<Subsample>, i: nat, n: nat)
    requires i <= n <= |e|
    ensures SpanTo(e, i) <= SpanTo(e, n) && CipherTo(e, i) <= CipherTo(e, n)
    decreases n
  {
    if i < n {
      SpanMonotone(e, i, n - 1);
    }
  }

  /** The contiguous cipher buffer pbData built by the first loop of
      transform_ip over the first `n` entries: their encrypted ranges, in
      order. */
  function GatherTo(d: seq<byte>, e: seq<Subsample>, n: nat): (r: seq<byte>)
    requires n <= |e| && SpanTo(e, n) <= |d|
    ensures |r| == CipherTo(e, n)
  {
    if n == 0 then []
    else GatherTo(d, e, n - 1) + d[CipherStart(e, n - 1)..CipherStart(e, n - 1) + e[n - 1].cipher]
  }

  function Gather(d: seq<byte>, e: seq<Subsample>): (r: seq<byte>)
    requires Span(e) <= |d|
    ensures |r| == CipherTotal(e)
  {
    GatherTo(d, e, |e|)
  }

  /** The sample after the second loop of transform_ip has copied the
      decrypted bytes `p` back over the encrypted ranges of the first `n`
      entries: each such byte takes its decrypted counterpart, every other
      byte stays. */
  function ScatterTo(d: seq<byte>, e: seq<Subsample>, n: nat, p: seq<byte>): (r: seq<byte>)
    requires n <= |e| && CipherTo(e, n) <= |p|
    ensures |r| == |d|
  {
    seq(|d|, k requires 0 <= k < |d| =>
      match CipherIndexTo(e, n, k) case Some(j) => p[j] case None => d[k])
  }

  function Scatter(d: seq<byte>, e: seq<Subsample>, p: seq<byte>): (r: seq<byte>)
    requires Span(e) <= |d| && |p| == CipherTotal(e)
    ensures |r| == |d|
  {
    ScatterTo(d, e, |e|, p)
  }

  /** Gather puts sample byte `k` at its cipher index. */
  lemma {:induction false} GatherAt(d: seq<byte>, e: seq<Subsample>, n: nat, k: int)
    requires n <= |e| && SpanTo(e, n) <= |d| && CipherIndexTo(e, n, k).Some?
    ensures GatherTo(d, e, n)[CipherIndexTo(e, n, k).value] == d[k]
  {
    if !(CipherStart(e, n - 1) <= k < CipherStart(e, n - 1) + e[n - 1].cipher) {
      GatherAt(d, e, n - 1, k);
    }
  }

  /** Every index of the cipher buffer comes from exactly one sample byte. */
  lemma {:induction false} CipherPosition(e: seq<Subsample>, n: nat, j: nat) returns (k: nat)
    requires n <= |e| && j < CipherTo(e, n)
    ensures k < SpanTo(e, n) && CipherIndexTo(e, n, k) == Some(j)
  {
    if j >= CipherTo(e, n - 1) {
      k := CipherStart(e, n - 1) + (j - CipherTo(e, n - 1));
    } else {
      k := CipherPosition(e, n - 1, j);
    }
  }

  /** Scatter writes nothing outside the encrypted ranges: clear ranges and
      the tail of the sample keep their bytes. */
  lemma ScatterWritesCipherOnly(d: seq<byte>, e: seq<Subsample>, p: seq<byte>, k: int)
    requires Span(e) <= |d| && |p| == CipherTotal(e)
    requires 0 <= k < |d| && !InCipher(e, k)
    ensures Scatter(d, e, p)[k] == d[k]
  {
  }

  /** With an identity decrypt, gather then scatter leaves the sample as it
      was, byte for byte. */
  lemma ScatterGather(d: seq<byte>, e: seq<Subsample>)
    requires Span(e) <= |d|
    ensures Scatter(d, e, Gather(d, e)) == d
  {
    var s := Scatter(d, e, Gather(d, e));
    forall k | 0 <= k < |d|
      ensures s[k] == d[k]
    {
      if InCipher(e, k) {
        GatherAt(d, e, |e|, k);
      }
    }
  }

  /** Scattering `p` and gathering again yields `p`: each decrypted byte
      lands in exactly one encrypted position. */
  lemma GatherScatter(d: seq<byte>, e: seq<Subsample>, p: seq<byte>)
    requires Span(e) <= |d| && |p| == CipherTotal(e)
    ensures Gather(Scatter(d, e, p), e) == p
  {
    var s := Scatter(d, e, p);
    var g := Gather(s, e);
    forall j | 0 <= j < |p|
      ensures g[j] == p[j]
    {
      var k := CipherPosition(e, |e|, j);
      GatherAt(s, e, |e|, k);
    }
  }

  /** One more entry scattered: its decrypted bytes overwrite its
      encrypted range and nothing else. */
  lemma ScatterStep(d: seq<byte>, e: seq<Subsample>, i: nat, p: seq<byte>)
    requires i < |e| && SpanTo(e, i + 1) <= |d| && CipherTo(e, i + 1) <= |p|
    ensures var cur := ScatterTo(d, e, i, p);
      var n := CipherTo(e, i);
      var start := CipherStart(e, i);
      ScatterTo(d, e, i + 1, p) == cur[..start] + p[n..n + e[i].cipher] + cur[start + e[i].cipher..]
  {
    var cur := ScatterTo(d, e, i, p);
    var n := CipherTo(e, i);
    var start := CipherStart(e, i);
    var c := e[i].cipher;
    var r := cur[..start] + p[n..n + c] + cur[start + c..];
    forall k | 0 <= k < |d|
      ensures ScatterTo(d, e, i + 1, p)[k] == r[k]
    {
      if start <= k < start + c {
        assert CipherIndexTo(e, i + 1, k) == Some(n + k - start);
      } else {
        assert CipherIndexTo(e, i + 1, k) == CipherIndexTo(e, i, k);
      }
    }
  }

  // ---------------------------------------------------------------------
  // The subsample blob: per entry a big-endian uint16 clear count followed
  // by a big-endian uint32 cipher count, read with GstByteReader.
  // ---------------------------------------------------------------------

  const ENTRY_SIZE: nat := 6

  /** The `count` entries of the blob; None when the reader runs dry first
      (gst_byte_reader_get_uint16_be / _uint32_be return FALSE). */
  function ParseSubsamples(blob: seq<byte>, count: nat): (r: Option<seq<Subsample>>)
    ensures r.Some? <==> count * ENTRY_SIZE <= |blob|
    ensures r.Some? ==> |r.value| == count && forall s <- r.value :: WellSized(s)
    ensures r.Some? ==> forall i :: 0 <= i < count ==>
      r.value[i] == Subsample(U16Be(blob, i * ENTRY_SIZE), U32Be(blob, i * ENTRY_SIZE + 2))
  {
    if count * ENTRY_SIZE <= |blob| then
      Some(seq(count, i requires 0 <= i < count =>
        Subsample(U16Be(blob, i * ENTRY_SIZE), U32Be(blob, i * ENTRY_SIZE + 2))))
    else None
  }

  /** The blob a muxer writes for well-sized entries. */
  function EncodeSubsamples(e: seq<Subsample>): (r: seq<byte>)
    requires forall s <- e :: WellSized(s)
    ensures |r| == |e| * ENTRY_SIZE
  {
    if e == [] then []
    else
      var s := Last(e);
      EncodeSubsamples(Init(e)) +
        [Octet(s.clear / 0x100), Octet(s.clear),
         Octet(s.cipher / 0x100_0000), Octet(s.cipher / 0x1_0000), Octet(s.cipher / 0x100), Octet(s.cipher)]
  }

  lemma {:induction false} EncodedEntry(e: seq<Subsample>, i: nat)
    requires forall s <- e :: WellSized(s)
    requires i < |e|
    ensures U16Be(EncodeSubsamples(e), i * ENTRY_SIZE) == e[i].clear
    ensures U32Be(EncodeSubsamples(e), i * ENTRY_SIZE + 2) == e[i].cipher
  {
    var b := EncodeSubsamples(e);
    var prefix := EncodeSubsamples(Init(e));
    var k := i * ENTRY_SIZE;
    assert b == prefix + b[|prefix|..];
    if i < |e| - 1 {
      EncodedEntry(Init(e), i);
      assert k + 6 <= |prefix|;
      assert b[k] == prefix[k] && b[k + 1] == prefix[k + 1] && b[k + 2] == prefix[k + 2];
      assert b[k + 3] == prefix[k + 3] && b[k + 4] == prefix[k + 4] && b[k + 5] == prefix[k + 5];
    } else {
      var s := Last(e);
      assert s == e[i] && s in e;
      assert k == |prefix|;
      Reassemble16(s.clear);
      Reassemble32(s.cipher);
    }
  }

  /** Reading back an encoded blob yields the entries that were written. */
  lemma ParseEncoded(e: seq<Subsample>)
    requires forall s <- e :: WellSized(s)
    ensures ParseSubsamples(EncodeSubsamples(e), |e|) == Some(e)
  {
    var b := EncodeSubsamples(e);
    var r := ParseSubsamples(b, |e|);
    assert r.Some? && |r.value| == |e|;
    var v := r.value;
    forall i | 0 <= i < |e|
      ensures v[i] == e[i]
    {
      assert v[i] == Subsample(U16Be(b, i * ENTRY_SIZE), U32Be(b, i * ENTRY_SIZE + 2));
      EncodedEntry(e, i);
    }
    assert v == e;
  }

  // ---------------------------------------------------------------------
  // Decrypt-failure escalation.
  // ---------------------------------------------------------------------

  /** decryptFailCount and notifyDecryptError. */
  datatype Escalation = Escalation(failCount: nat, notify: bool)

  /** The bookkeeping after one decrypt call, and whether it posted the
      element error. */
  datatype Escalated = Escalated(esc: Escalation, posted: bool)

  /** One decrypt call returning `code`: a failure increments the gushort
      counter (wrapping at 2^16) and posts the error once the count reaches
      the threshold while notification is armed; a success resets the
      counter and leaves notification as it was. */
  function DecryptStep(e: Escalation, code: int): (r: Escalated)
    requires e.failCount < TWO_POW_16
    ensures r.esc.failCount < TWO_POW_16
    ensures code == 0 ==> r == Escalated(Escalation(0, e.notify), false)
    ensures code != 0 ==> r.esc.failCount == (e.failCount + 1) % TWO_POW_16
    ensures r.posted <==> code != 0 && e.notify && r.esc.failCount >= DECRYPT_FAILURE_THRESHOLD
    ensures r.esc.notify == (e.notify && !r.posted)
  {
    if code == 0 then Escalated(Escalation(0, e.notify), false)
    else
      var count := (e.failCount + 1) % TWO_POW_16;
      if count >= DECRYPT_FAILURE_THRESHOLD && e.notify then Escalated(Escalation(count, false), true)
      else Escalated(Escalation(count, e.notify), false)
  }

  /** The bookkeeping after a series of decrypt calls, with the number of
      errors posted. */
  datatype Run = Run(esc: Escalation, posts: nat)

  function RunDecrypts(e: Escalation, codes: seq<int>): (r: Run)
    requires e.failCount < TWO_POW_16
    ensures r.esc.failCount < TWO_POW_16
    decreases |codes|
  {
    if codes == [] then Run(e, 0)
    else
      var s := DecryptStep(e, codes[0]);
      var rest := RunDecrypts(s.esc, codes[1..]);
      Run(rest.esc, rest.posts + if s.posted then 1 else 0)
  }

  /** The error is posted at most once over the element's lifetime, and
      never once notification is off: nothing re-arms it. */
  lemma {:induction false} ErrorPostedAtMostOnce(e: Escalation, codes: seq<int>)
    requires e.failCount < TWO_POW_16
    ensures RunDecrypts(e, codes).posts <= if e.notify then 1 else 0
    ensures !e.notify ==> !RunDecrypts(e, codes).esc.notify
    decreases |codes|
  {
    if codes != [] {
      ErrorPostedAtMostOnce(DecryptStep(e, codes[0]).esc, codes[1..]);
    }
  }

  /** From `count` earlier failures below the threshold with notification
      armed, a run of failures posts the error exactly when the count
      reaches the threshold. */
  lemma {:induction false} ConsecutiveFailuresEscalate(count: nat, codes: seq<int>)
    requires count < DECRYPT_FAILURE_THRESHOLD && count + |codes| < TWO_POW_16
    requires forall j :: 0 <= j < |codes| ==> codes[j] != 0
    ensures RunDecrypts(Escalation(count, true), codes).posts ==
      if count + |codes| >= DECRYPT_FAILURE_THRESHOLD then 1 else 0
    decreases |codes|
  {
    if codes != [] {
      var s := DecryptStep(Escalation(count, true), codes[0]);
      if count + 1 >= DECRYPT_FAILURE_THRESHOLD {
        assert s.posted;
        ErrorPostedAtMostOnce(s.esc, codes[1..]);
      } else {
        assert s.esc == Escalation(count + 1, true);
        ConsecutiveFailuresEscalate(count + 1, codes[1..]);
      }
    }
  }

  // ---------------------------------------------------------------------
  // The protection metadata of a sample and what transform_ip makes of it.
  // ---------------------------------------------------------------------

  /** The fields of the GstProtectionMeta structure; None for a field that
      is absent (or, for the iv and subsamples buffers, cannot be mapped). */
  datatype ProtectionInfo = ProtectionInfo(
    ivSize: Option<nat>,
    encrypted: Option<bool>,
    subsampleCount: Option<nat>,
    iv: Option<seq<byte>>,
    subsamples: Option<seq<byte>>)

  /** What transform_ip decides to do with a mapped sample once the key
      gate is passed. */
  datatype Layout =
    | Unsupported
    | ClearSample
    | WholeSample(iv: seq<byte>)
    | Subsamples(iv: seq<byte>, entries: seq<Subsample>)

  /** The sample's layout as transform_ip reads it: every missing field is
      GST_FLOW_NOT_SUPPORTED, a zero iv_size or a false `encrypted` flag is
      a clear sample, a zero subsample_count makes the whole buffer one
      encrypted block.  There is no check that the entries fit the buffer. */
  function SampleLayoutAsWritten(info: ProtectionInfo, mapped: bool): (r: Layout)
    ensures r == ClearSample <==>
      mapped && info.ivSize.Some? && info.encrypted.Some? && (info.ivSize.value == 0 || !info.encrypted.value)
    ensures r.WholeSample? ==> info.subsampleCount == Some(0) && info.iv == Some(r.iv)
    ensures r.Subsamples? ==>
      info.subsampleCount == Some(|r.entries|) && |r.entries| > 0 && info.iv == Some(r.iv) &&
      info.subsamples.Some? && ParseSubsamples(info.subsamples.value, |r.entries|) == Some(r.entries)
    ensures r.Subsamples? || r.WholeSample? ==> mapped && info.ivSize.Some? && info.ivSize.value != 0 && info.encrypted == Some(true)
  {
    if !mapped || info.ivSize.None? || info.encrypted.None? then Unsupported
    else if info.ivSize.value == 0 || !info.encrypted.value then ClearSample
    else if info.subsampleCount.None? || info.iv.None? then Unsupported
    else if info.subsampleCount.value == 0 then WholeSample(info.iv.value)
    else if info.subsamples.None? then Unsupported
    else match ParseSubsamples(info.subsamples.value, info.subsampleCount.value)
      case None => Unsupported
      case Some(e) => Subsamples(info.iv.value, e)
  }

  /** The layout with the bounds check the copy loops need: entries that
      describe more bytes than the mapped buffer holds are refused. */
  function SampleLayout(info: ProtectionInfo, mapped: bool, size: nat): (r: Layout)
    ensures r.Subsamples? ==> Span(r.entries) <= size
    ensures r != Unsupported ==> r == SampleLayoutAsWritten(info, mapped)
    ensures r == Unsupported <==>
      SampleLayoutAsWritten(info, mapped) == Unsupported ||
      (SampleLayoutAsWritten(info, mapped).Subsamples? && Span(SampleLayoutAsWritten(info, mapped).entries) > size)
  {
    var w := SampleLayoutAsWritten(info, mapped);
    if w.Subsamples? && Span(w.entries) > size then Unsupported else w
  }

  /** Whether a sample with this layout holds bytes for the DRM session:
      a non-empty whole-sample block, or subsamples with encrypted bytes. */
  predicate NeedsDecrypt(layout: Layout, size: nat)
  {
    (layout.WholeSample? && size > 0) || (layout.Subsamples? && CipherTotal(layout.entries) > 0)
  }

  /** A one-entry blob declaring 16 encrypted bytes in an 8-byte sample
      passes every check as written, and the gather loop then reads 8 bytes
      past the mapped buffer; the checked layout refuses it. */
  lemma UncheckedGatherOverruns()
    ensures var info := ProtectionInfo(Some(16), Some(true), Some(1), Some([]), Some([0, 0, 0, 0, 0, 16]));
      var w := SampleLayoutAsWritten(info, true);
      w.Subsamples? && Span(w.entries) == 16 && SampleLayout(info, true, 8) == Unsupported
  {
    var blob: seq<byte> := [0, 0, 0, 0, 0, 16];
    assert U16Be(blob, 0) == 0 && U32Be(blob, 2) == 16;
    var e := ParseSubsamples(blob, 1).value;
    assert e == [Subsample(0, 16)];
  }

  /** The chunk list gst_add_svp_meta_data attaches when the session
      returns an opaque (secure-memory) handle: the subsample entries, or a
      single all-encrypted chunk of cbData bytes. */
  function SvpChunks(e: seq<Subsample>, cbData: nat): (r: seq<Subsample>)
    ensures |r| >= 1
    ensures e == [] ==> r == [Subsample(0, cbData)]
    ensures e != [] ==> r == e
  {
    if e == [] then [Subsample(0, cbData)] else e
  }

  /** The chunk list accounts for exactly the encrypted bytes handed to the
      session. */
  lemma SvpChunksCoverCipher(e: seq<Subsample>, size: nat)
    ensures CipherTotal(SvpChunks(e, CipherTotal(e))) == CipherTotal(e)
    ensures e == [] ==> CipherTotal(SvpChunks(e, size)) == size
  {
    if e == [] {
      assert CipherTo([Subsample(0, size)], 0) == 0;
      assert CipherTo([Subsample(0, 0)], 0) == 0;
    }
  }

  // ---------------------------------------------------------------------
  // Caps rewriting (transform_caps).
  // ---------------------------------------------------------------------

  const CENC_MEDIA_TYPE: string := "application/x-cenc"

  /** The video fields stripped from upstream caps on the SRC side. */
  const VIDEO_FIELDS: set<string> :=
    {"base-profile", "codec_data", "height", "framerate", "level",
     "pixel-aspect-ratio", "profile", "rate", "width"}

  predicate HasPrefix(s: string, p: string)
  {
    |p| <= |s| && s[..|p|] == p
  }

  /** A field the SINK side strips: one named with the protection-system or
      original-media-type prefix. */
  predicate IsDrmField(f: string)
  {
    HasPrefix(f, "protection-system") || HasPrefix(f, "original-media-type")
  }

  /** selectedProtection after transform_caps: chosen once, from the first
      structure's protection-system, and only as PlayReady or Widevine. */
  function SelectedProtection(prev: Option<string>, caps: seq<Structure>): (r: Option<string>)
    ensures prev.Some? ==> r == prev
    ensures r.Some? ==> r == prev || r.value in {PLAYREADY_PROTECTION_SYSTEM_ID, WIDEVINE_PROTECTION_SYSTEM_ID}
    ensures prev.None? && r.Some? ==>
      |caps| > 0 && "protection-system" in caps[0].fields && caps[0].fields["protection-system"] == Text(r.value)
  {
    if prev.Some? || caps == [] || "protection-system" !in caps[0].fields then prev
    else match caps[0].fields["protection-system"]
      case Text(id) =>
        if id == PLAYREADY_PROTECTION_SYSTEM_ID || id == WIDEVINE_PROTECTION_SYSTEM_ID then Some(id) else prev
      case _ => prev
  }

  /** The SRC-side rewrite of one upstream structure. */
  function ToCenc(s: Structure, protection: Option<string>): (r: Structure)
    ensures r.name == CENC_MEDIA_TYPE
    ensures "original-media-type" in r.fields && r.fields["original-media-type"] == Text(s.name)
    ensures "protection-system" in r.fields &&
      r.fields["protection-system"] == (if protection.Some? then Text(protection.value) else NullText)
    ensures forall f :: f in r.fields && f != "original-media-type" && f != "protection-system" ==>
      f in s.fields && f !in VIDEO_FIELDS && r.fields[f] == s.fields[f]
    ensures forall f :: f in s.fields && f !in VIDEO_FIELDS ==> f in r.fields
  {
    var kept := map f | f in s.fields && f !in VIDEO_FIELDS :: s.fields[f];
    Structure(CENC_MEDIA_TYPE,
      kept["protection-system" := if protection.Some? then Text(protection.value) else NullText]
          ["original-media-type" := Text(s.name)])
  }

  /** The SINK-side rewrite of one downstream structure: None for one
      without original-media-type, which is skipped.  The name becomes the
      original media type (a non-string value leaves the name as it was,
      since gst_structure_set_name refuses NULL). */
  function FromCenc(s: Structure): (r: Option<Structure>)
    ensures r.None? <==> "original-media-type" !in s.fields
    ensures r.Some? ==> forall f :: f in r.value.fields <==> f in s.fields && !IsDrmField(f)
    ensures r.Some? ==> forall f :: f in r.value.fields ==> r.value.fields[f] == s.fields[f]
    ensures r.Some? && s.fields["original-media-type"].Text? ==> r.value.name == s.fields["original-media-type"].s
  {
    if "original-media-type" !in s.fields then None
    else
      var name := match s.fields["original-media-type"] case Text(t) => t case _ => s.name;
      Some(Structure(name, map f | f in s.fields && !IsDrmField(f) :: s.fields[f]))
  }

  /** Going to application/x-cenc and back restores a structure that had
      neither video fields nor DRM fields. */
  lemma CencRoundTrip(s: Structure, protection: Option<string>)
    requires forall f :: f in s.fields ==> f !in VIDEO_FIELDS && !IsDrmField(f)
    ensures FromCenc(ToCenc(s, protection)) == Some(s)
  {
    assert IsDrmField("original-media-type") && IsDrmField("protection-system");
    var r := FromCenc(ToCenc(s, protection)).value;
    assert r.fields == s.fields;
  }

  /** The rewrite of one structure in the given direction. */
  function Rewrite(s: Structure, dir: PadDirection, protection: Option<string>): Option<Structure>
  {
    if dir == SrcPad then Some(ToCenc(s, protection)) else FromCenc(s)
  }

  /** gst_aampcdmicapsappendifnotduplicate. */
  function AppendUnique(dest: seq<Structure>, s: Structure): (r: seq<Structure>)
  {
    if s in dest then dest else dest + [s]
  }

  /** The caps transform_caps returns, before the filter intersection. */
  function TransformedCaps(caps: seq<Structure>, dir: PadDirection, protection: Option<string>): seq<Structure>
  {
    if caps == [] then []
    else
      var prev := TransformedCaps(Init(caps), dir, protection);
      match Rewrite(Last(caps), dir, protection)
      case None => prev
      case Some(s) => AppendUnique(prev, s)
  }

  predicate NoDuplicates(s: seq<Structure>)
  {
    forall i, j :: 0 <= i < j < |s| ==> s[i] != s[j]
  }

  /** The rewrites of the input structures, as a set. */
  function Rewrites(caps: seq<Structure>, dir: PadDirection, protection: Option<string>): set<Structure>
  {
    set i, s | 0 <= i < |caps| && s in OptionSet(Rewrite(caps[i], dir, protection)) :: s
  }

  function OptionSet<T>(o: Option<T>): set<T>
  {
    if o.Some? then {o.value} else {}
  }

  lemma RewritesOfInit(caps: seq<Structure>, dir: PadDirection, protection: Option<string>)
    requires caps != []
    ensures Rewrites(caps, dir, protection) ==
      Rewrites(Init(caps), dir, protection) + OptionSet(Rewrite(Last(caps), dir, protection))
  {
    var n := |caps| - 1;
    forall i | 0 <= i < n
      ensures Init(caps)[i] == caps[i]
    {
    }
  }

  /** The transformed caps hold no structure twice. */
  lemma {:induction false} TransformedCapsUnique(caps: seq<Structure>, dir: PadDirection, protection: Option<string>)
    ensures NoDuplicates(TransformedCaps(caps, dir, protection))
  {
    if caps != [] {
      TransformedCapsUnique(Init(caps), dir, protection);
    }
  }

  /** The transformed caps hold exactly the rewrites of the input
      structures: none is lost and none is invented. */
  lemma {:induction false} TransformedCapsExact(caps: seq<Structure>, dir: PadDirection, protection: Option<string>)
    ensures forall s :: s in TransformedCaps(caps, dir, protection) <==> s in Rewrites(caps, dir, protection)
  {
    if caps != [] {
      TransformedCapsExact(Init(caps), dir, protection);
      RewritesOfInit(caps, dir, protection);
    }
  }

  /** gst_aampcdmicapsappendifnotduplicate: `s` is appended unless a
      structure equal to it is already there. */
  method AppendIfNotDuplicate(dest: seq<Structure>, s: Structure) returns (r: seq<Structure>)
    ensures r == AppendUnique(dest, s)
    ensures s in r && |r| <= |dest| + 1 && dest <= r
  {
    var duplicate := false;
    var index := 0;
    while !duplicate && index < |dest|
      invariant 0 <= index <= |dest|
      invariant duplicate <==> s in dest[..index]
      decreases |dest| - index, !duplicate
    {
      if dest[index] == s {
        duplicate := true;
      }
      index := index + 1;
    }
    if !duplicate {
      assert dest[..index] == dest;
      r := dest + [s];
    } else {
      r := dest;
    }
  }

  /** The loop of transform_caps over the input structures. */
  method RewriteAll(caps: seq<Structure>, dir: PadDirection, protection: Option<string>)
    returns (out: seq<Structure>)
    ensures out == TransformedCaps(caps, dir, protection)
  {
    out := [];
    for i := 0 to |caps|
      invariant out == TransformedCaps(caps[..i], dir, protection)
    {
      assert Init(caps[..i + 1]) == caps[..i] && Last(caps[..i + 1]) == caps[i];
      var rewritten := Rewrite(caps[i], dir, protection);
      if rewritten.Some? {
        out := AppendIfNotDuplicate(out, rewritten.value);
      }
    }
    assert caps[..|caps|] == caps;
  }

  // ---------------------------------------------------------------------
  // The element.
  // ---------------------------------------------------------------------

  /** MediaType as far as the decryptor distinguishes it. */
  datatype MediaType = Manifest | Audio | Video

  /** The stream type learnt from the sink caps' original-media-type. */
  function MediaTypeOf(originalMediaType: Option<string>): (r: Option<MediaType>)
    ensures r == Some(Audio) <==>
      originalMediaType.Some? && originalMediaType.value in {"audio/mpeg", "audio/x-eac3", "audio/x-gst-fourcc-ec_3"}
    ensures r == Some(Video) <==>
      originalMediaType.Some? && originalMediaType.value in {"video/x-h264", "video/x-h265"}
    ensures r != Some(Manifest)
  {
    match originalMediaType
    case None => None
    case Some(t) =>
      if t == "audio/mpeg" || t == "audio/x-eac3" || t == "audio/x-gst-fourcc-ec_3" then Some(Audio)
      else if t == "video/x-h264" || t == "video/x-h265" then Some(Video)
      else None
  }

  /** A GST_EVENT_PROTECTION and what the collaborators answer while it is
      handled: the init data (None if it cannot be mapped), the sink caps'
      original-media-type, whether the peer answers the aamp-instance query
      and whether createDrmSession returns a session. */
  datatype ProtectionEvent = ProtectionEvent(
    systemId: string,
    initData: Option<seq<byte>>,
    sinkMediaType: Option<string>,
    aampFound: bool,
    sessionCreated: bool)

  /** Whether the protection event reaches createDrmSession: it is for the
      selected DRM system, its init data maps, the stream type is known or
      learnt from the sink caps, and an aamp instance is known or found. */
  predicate RequestsSession(ev: ProtectionEvent, selected: string, streamType: MediaType, hasAamp: bool)
  {
    ev.systemId == selected && ev.initData.Some? &&
    (streamType != Manifest || MediaTypeOf(ev.sinkMediaType).Some?) &&
    (hasAamp || ev.aampFound)
  }

  /** Whether the protection event teaches the element its stream type:
      the type was still unknown and the event gets past the system-id and
      init-data tests to a recognised original-media-type. */
  predicate LearnsStreamType(ev: ProtectionEvent, selected: string, streamType: MediaType)
  {
    streamType == Manifest && ev.systemId == selected && ev.initData.Some? &&
    MediaTypeOf(ev.sinkMediaType).Some?
  }

  /** What ends transform_ip's wait for the key: a protection event handled
      on the sink pad, the PAUSED_TO_READY transition, or a spurious
      wake-up. */
  datatype Wakeup = ByProtection(ev: ProtectionEvent) | ByStateChange | Spurious

  /** What the DRM session's decrypt call returns: its error code, the
      bytes it leaves in the buffer it was given, and whether it handed
      back an opaque secure-memory handle. */
  datatype Decryption = Decryption(code: int, plain: seq<byte>, secureHandle: bool)

  datatype FlowReturn = FlowOk | FlowNotSupported | FlowError

  /** The key gate's state, gathered so that a method can say in one
      equation what it changes. */
  datatype GateState = GateState(
    streamReceived: bool,
    canWait: bool,
    hasSession: bool,
    hasAamp: bool,
    streamType: MediaType,
    selectedProtection: Option<string>,
    signals: nat,
    sessionRequests: seq<string>)

  /** The gate after a protection event on the sink pad, once a DRM system
      is selected: an event for another system, without init data or of an
      unknown media type changes nothing; otherwise the stream type is
      learnt and the aamp instance looked up, and when one is known a
      session is requested, the key marked received if the session was
      created, and the condition signalled.  `sinkType` is the type the
      sink caps give, MediaTypeOf the event's original-media-type. */
  function Protected(g: GateState, ev: ProtectionEvent, sinkType: Option<MediaType>): GateState
    requires g.selectedProtection.Some?
  {
    var selected := g.selectedProtection.value;
    if ev.systemId != selected || ev.initData.None? || (g.streamType == Manifest && sinkType.None?)
    then g
    else
      var learnt := g.(streamType := if g.streamType == Manifest then sinkType.value else g.streamType,
                       hasAamp := g.hasAamp || ev.aampFound);
      if !learnt.hasAamp then learnt
      else learnt.(sessionRequests := g.sessionRequests + [ev.systemId], hasSession := ev.sessionCreated,
                   streamReceived := g.streamReceived || ev.sessionCreated, signals := g.signals + 1)
  }

  /** What a protection event does to the gate, field by field: a session
      is requested exactly when RequestsSession holds, and only then do
      the session, the key flag and the signal count change; the stream
      type changes exactly when it is learnt; another system's event
      changes nothing. */
  lemma ProtectedEffect(g: GateState, ev: ProtectionEvent)
    requires g.selectedProtection.Some?
    ensures var r := Protected(g, ev, MediaTypeOf(ev.sinkMediaType));
      var selected := g.selectedProtection.value;
      var requested := RequestsSession(ev, selected, g.streamType, g.hasAamp);
      (ev.systemId != selected ==> r == g) &&
      (r.sessionRequests == g.sessionRequests || r.sessionRequests == g.sessionRequests + [ev.systemId]) &&
      (r.sessionRequests != g.sessionRequests <==> requested) &&
      (requested ==>
        r.hasSession == ev.sessionCreated && r.streamReceived == (g.streamReceived || ev.sessionCreated) &&
        r.signals == g.signals + 1 && r.hasAamp) &&
      (!requested ==>
        r.streamReceived == g.streamReceived && r.hasSession == g.hasSession && r.signals == g.signals) &&
      r.canWait == g.canWait && r.selectedProtection == g.selectedProtection &&
      (LearnsStreamType(ev, selected, g.streamType) ==> r.streamType == MediaTypeOf(ev.sinkMediaType).value) &&
      (!LearnsStreamType(ev, selected, g.streamType) ==> r.streamType == g.streamType) &&
      (r.hasAamp <==>
        g.hasAamp ||
        (ev.systemId == selected && ev.initData.Some? &&
         (g.streamType != Manifest || MediaTypeOf(ev.sinkMediaType).Some?) && ev.aampFound))
  {
  }

  /** The gate after transform_ip's wait for the key ends as `wake` says:
      a protection event is handled, PAUSED_TO_READY forbids further waits
      and signals, and a spurious wake-up changes nothing. */
  function Woken(g: GateState, wake: Wakeup): GateState
    requires wake.ByProtection? ==> g.selectedProtection.Some?
  {
    match wake
    case ByProtection(ev) => Protected(g, ev, MediaTypeOf(ev.sinkMediaType))
    case ByStateChange => g.(canWait := false, signals := g.signals + 1)
    case Spurious => g
  }

  /** The gate after transform_ip's key gate: it waits only when waiting
      is allowed and the key has not arrived. */
  function GateAfter(g: GateState, wake: Wakeup): GateState
    requires wake.ByProtection? ==> g.selectedProtection.Some?
  {
    if g.canWait && !g.streamReceived then Woken(g, wake) else g
  }

  /** GstAampCDMIDecryptor. */
  class CdmiDecryptorElement {
    var streamReceived: bool
    var canWait: bool
    /** drmSession != NULL */
    var hasSession: bool
    /** aamp != NULL */
    var hasAamp: bool
    var firstSegProcessed: bool
    var streamType: MediaType
    var selectedProtection: Option<string>
    var decryptFailCount: nat
    var notifyDecryptError: bool
    /** g_cond_signal calls on the key condition. */
    var signals: nat
    /** The system IDs createDrmSession was called with. */
    var sessionRequests: seq<string>
    /** The (iv, cipher bytes) of every decrypt call. */
    var decryptLog: seq<(seq<byte>, seq<byte>)>
    /** The codes of the decrypt errors posted on the bus. */
    var postedErrors: seq<int>

    ghost predicate Valid()
      reads this
    {
      decryptFailCount < TWO_POW_16
    }

    ghost function Gate(): GateState
      reads this
    {
      GateState(streamReceived, canWait, hasSession, hasAamp, streamType, selectedProtection, signals, sessionRequests)
    }

    ghost function Esc(): Escalation
      reads this
    {
      Escalation(decryptFailCount, notifyDecryptError)
    }

    /** gst_aampcdmidecryptor_transform_caps, before the filter
        intersection: the protection system is chosen from the first
        structure if none was, then every structure is rewritten and
        appended unless already present. */
    method TransformCaps(dir: PadDirection, caps: seq<Structure>) returns (out: seq<Structure>)
      modifies this
      ensures Gate() == old(Gate()).(selectedProtection := SelectedProtection(old(selectedProtection), caps))
      ensures Esc() == old(Esc()) && decryptLog == old(decryptLog) && postedErrors == old(postedErrors)
      ensures firstSegProcessed == old(firstSegProcessed)
      ensures out == TransformedCaps(caps, dir, selectedProtection)
    {
      selectedProtection := SelectedProtection(selectedProtection, caps);
      out := RewriteAll(caps, dir, selectedProtection);
    }

    /** gst_aampcdmidecryptor_init. */
    constructor ()
      ensures Valid()
      ensures !streamReceived && !canWait && !hasSession && !hasAamp && !firstSegProcessed
      ensures streamType == Manifest && selectedProtection == None
      ensures Esc() == Escalation(0, true)
      ensures signals == 0 && sessionRequests == [] && decryptLog == [] && postedErrors == []
    {
      streamReceived := false;
      canWait := false;
      hasSession := false;
      hasAamp := false;
      firstSegProcessed := false;
      streamType := Manifest;
      selectedProtection := None;
      decryptFailCount := 0;
      notifyDecryptError := true;
      signals := 0;
      sessionRequests := [];
      decryptLog := [];
      postedErrors := [];
    }

    /** The branches of the GST_EVENT_PROTECTION case, as written: the
        early exits and the session request, against Protected. */
    method ProtectionBranches(ev: ProtectionEvent, sinkType: Option<MediaType>) returns (result: bool)
      requires selectedProtection.Some?
      modifies this
      ensures Gate() == Protected(old(Gate()), ev, sinkType)
      ensures result <==> ev.systemId != old(selectedProtection.value) || sessionRequests != old(sessionRequests)
      ensures unchanged(`decryptFailCount, `notifyDecryptError, `decryptLog, `postedErrors, `firstSegProcessed)
    {
      if ev.systemId != selectedProtection.value {
        return true;
      }
      if ev.initData.None? {
        return false;
      }
      if streamType == Manifest {
        if sinkType.None? {
          return false;
        }
        streamType := sinkType.value;
      }
      if !hasAamp {
        hasAamp := ev.aampFound;
      }
      if !hasAamp {
        return false;
      }
      sessionRequests := sessionRequests + [ev.systemId];
      hasSession := ev.sessionCreated;
      if ev.sessionCreated {
        streamReceived := true;
      }
      signals := signals + 1;
      result := true;
    }

    /** The GST_EVENT_PROTECTION case of gst_aampcdmidecryptor_sink_event.
        g_str_equal dereferences selectedProtection, so it must be set. */
    method SinkEventProtection(ev: ProtectionEvent) returns (result: bool)
      requires selectedProtection.Some?
      modifies this
      ensures Esc() == old(Esc()) && decryptLog == old(decryptLog) && postedErrors == old(postedErrors)
      ensures firstSegProcessed == old(firstSegProcessed)
      // another DRM system's event is consumed without creating a session
      ensures Gate() == Protected(old(Gate()), ev, MediaTypeOf(ev.sinkMediaType))
      ensures ev.systemId != old(selectedProtection.value) ==> result && Gate() == old(Gate())
      // a session is requested only for the selected system, once the
      // stream type and the aamp instance are known
      ensures sessionRequests == old(sessionRequests) || sessionRequests == old(sessionRequests) + [ev.systemId]
      ensures sessionRequests != old(sessionRequests) <==>
        RequestsSession(ev, old(selectedProtection.value), old(streamType), old(hasAamp))
      // the exits for unmappable init data, unknown media type and no aamp
      // instance answer FALSE; every other path answers TRUE
      ensures result <==>
        ev.systemId != old(selectedProtection.value) ||
        RequestsSession(ev, old(selectedProtection.value), old(streamType), old(hasAamp))
      ensures sessionRequests != old(sessionRequests) ==>
        result && hasSession == ev.sessionCreated &&
        streamReceived == (old(streamReceived) || ev.sessionCreated) &&
        signals == old(signals) + 1 && hasAamp
      ensures sessionRequests == old(sessionRequests) ==>
        streamReceived == old(streamReceived) && hasSession == old(hasSession) && signals == old(signals)
      ensures canWait == old(canWait) && selectedProtection == old(selectedProtection)
      ensures LearnsStreamType(ev, old(selectedProtection.value), old(streamType)) ==>
        streamType == MediaTypeOf(ev.sinkMediaType).value
      ensures !LearnsStreamType(ev, old(selectedProtection.value), old(streamType)) ==>
        streamType == old(streamType)
      ensures hasAamp <==>
        old(hasAamp) ||
        (ev.systemId == old(selectedProtection.value) && ev.initData.Some? &&
         (old(streamType) != Manifest || MediaTypeOf(ev.sinkMediaType).Some?) && ev.aampFound)
    {
      result := ProtectionBranches(ev, MediaTypeOf(ev.sinkMediaType));
      ProtectedEffect(old(Gate()), ev);
    }

    /** gst_aampcdmidecryptor_changestate: READY_TO_PAUSED lets
        transform_ip wait for the key; PAUSED_TO_READY forbids it and wakes
        a waiting transform_ip. */
    method ChangeState(t: Transition, parentRet: StateChangeReturn) returns (ret: StateChangeReturn)
      modifies this
      ensures ret == parentRet
      ensures t == ReadyToPaused ==> Gate() == old(Gate()).(canWait := true)
      ensures t == PausedToReady ==> Gate() == old(Gate()).(canWait := false, signals := old(signals) + 1)
      ensures t != ReadyToPaused && t != PausedToReady ==> Gate() == old(Gate())
      ensures Esc() == old(Esc()) && decryptLog == old(decryptLog) && postedErrors == old(postedErrors)
      ensures firstSegProcessed == old(firstSegProcessed)
    {
      if t == ReadyToPaused {
        canWait := true;
      } else if t == PausedToReady {
        canWait := false;
        signals := signals + 1;
      }
      ret := parentRet;
    }

    /** The key gate of transform_ip, under the element mutex: refuse at
        once when waiting is not allowed and no key arrived, otherwise wait
        once (what `wake` describes happens meanwhile), then require the key
        and a session. */
    method KeyGate(wake: Wakeup) returns (proceed: bool)
      requires wake.ByProtection? ==> selectedProtection.Some?
      modifies this
      ensures proceed <==> streamReceived && hasSession
      ensures Gate() == GateAfter(old(Gate()), wake)
      ensures wake.Spurious? ==> Gate() == old(Gate())
      ensures !old(canWait) && !old(streamReceived) ==> !proceed && Gate() == old(Gate())
      ensures old(streamReceived) ==> Gate() == old(Gate()) && (proceed <==> hasSession)
      ensures old(canWait) && !old(streamReceived) && !wake.ByProtection? ==> !proceed
      ensures old(canWait) && !old(streamReceived) && wake.ByProtection? && !wake.ev.sessionCreated ==> !proceed
      // a wait ended by a protection event that creates a session proceeds
      ensures (old(canWait) && !old(streamReceived) && wake.ByProtection? && wake.ev.sessionCreated &&
               RequestsSession(wake.ev, old(selectedProtection.value), old(streamType), old(hasAamp)))
              ==> proceed
      ensures Esc() == old(Esc()) && decryptLog == old(decryptLog) && postedErrors == old(postedErrors)
      ensures firstSegProcessed == old(firstSegProcessed)
    {
      if !canWait && !streamReceived {
        return false;
      }
      if !streamReceived {
        match wake {
          case ByProtection(ev) =>
            var _ := SinkEventProtection(ev);
          case ByStateChange =>
            var _ := ChangeState(PausedToReady, Success);
          case Spurious =>
        }
      }
      if !streamReceived || !hasSession {
        return false;
      }
      proceed := true;
    }

    /** The profiling epilogue of transform_ip: the first segment is marked
        processed once an aamp instance is known. */
    method MarkFirstSegment()
      modifies this
      ensures firstSegProcessed == (old(firstSegProcessed) || hasAamp)
      ensures Gate() == old(Gate()) && Esc() == old(Esc())
      ensures decryptLog == old(decryptLog) && postedErrors == old(postedErrors)
    {
      if !firstSegProcessed && hasAamp {
        firstSegProcessed := true;
      }
    }

    /** Decryption of a sample without subsamples: the mapped buffer
        itself is the cipher buffer (pbData = map.data), so the session
        decrypts it in place; an empty buffer is not decrypted. */
    method DecryptWhole(buffer: array<byte>, iv: seq<byte>, decrypt: (seq<byte>, seq<byte>) -> Decryption)
      returns (result: FlowReturn, svp: Option<seq<Subsample>>)
      requires Valid()
      requires forall v, c :: |decrypt(v, c).plain| == |c|
      modifies this, buffer
      ensures Valid()
      ensures Gate() == old(Gate()) && firstSegProcessed == old(firstSegProcessed)
      ensures buffer.Length == 0 ==>
        result == FlowOk && svp.None? && decryptLog == old(decryptLog) && Esc() == old(Esc()) &&
        postedErrors == old(postedErrors)
      ensures buffer.Length > 0 ==>
        var d := decrypt(iv, old(buffer[..]));
        var step := DecryptStep(old(Esc()), d.code);
        decryptLog == old(decryptLog) + [(iv, old(buffer[..]))] && buffer[..] == d.plain &&
        Esc() == step.esc && result == (if step.posted then FlowError else FlowOk) &&
        postedErrors == old(postedErrors) + (if step.posted then [d.code] else []) &&
        svp == (if d.code == 0 && d.secureHandle then Some(SvpChunks([], buffer.Length)) else None)
    {
      svp := None;
      result := FlowOk;
      if buffer.Length == 0 {
        return;
      }
      var cipher := buffer[..];
      var d := decrypt(iv, cipher);
      decryptLog := decryptLog + [(iv, cipher)];
      Memcpy(buffer, 0, d.plain);
      assert buffer[..] == d.plain;
      result := RecordDecrypt(d.code);
      if d.code == 0 && d.secureHandle {
        svp := Some(SvpChunks([], |cipher|));
      }
    }

    /** Decryption of a sample with subsamples: gather the encrypted
        ranges, decrypt them in one call, and (unless the session returned
        a secure handle) scatter the clear bytes back. */
    method DecryptSubsamples(buffer: array<byte>, iv: seq<byte>, e: seq<Subsample>,
                             decrypt: (seq<byte>, seq<byte>) -> Decryption)
      returns (result: FlowReturn, svp: Option<seq<Subsample>>)
      requires Valid() && Span(e) <= buffer.Length
      requires forall v, c :: |decrypt(v, c).plain| == |c|
      modifies this, buffer
      ensures Valid()
      ensures Gate() == old(Gate()) && firstSegProcessed == old(firstSegProcessed)
      ensures CipherTotal(e) == 0 ==>
        result == FlowOk && svp.None? && decryptLog == old(decryptLog) && Esc() == old(Esc()) &&
        postedErrors == old(postedErrors) && buffer[..] == old(buffer[..])
      ensures CipherTotal(e) > 0 ==>
        var cipher := Gather(old(buffer[..]), e);
        var d := decrypt(iv, cipher);
        var step := DecryptStep(old(Esc()), d.code);
        decryptLog == old(decryptLog) + [(iv, cipher)] &&
        buffer[..] == (if d.code == 0 && !d.secureHandle then Scatter(old(buffer[..]), e, d.plain) else old(buffer[..])) &&
        Esc() == step.esc && result == (if step.posted then FlowError else FlowOk) &&
        postedErrors == old(postedErrors) + (if step.posted then [d.code] else []) &&
        svp == (if d.code == 0 && d.secureHandle then Some(SvpChunks(e, |cipher|)) else None)
    {
      svp := None;
      result := FlowOk;
      var pb, cb := GatherCipher(buffer, e);
      if cb == 0 {
        return;
      }
      var cipher := pb[..cb];
      var d := decrypt(iv, cipher);
      decryptLog := decryptLog + [(iv, cipher)];
      result := RecordDecrypt(d.code);
      if d.code == 0 {
        if d.secureHandle {
          svp := Some(SvpChunks(e, cb));
        } else {
          ScatterPlain(buffer, e, d.plain);
        }
      }
    }

    /** gst_aampcdmidecryptor_transform_ip (the build without the OpenCDM
        adapter).  `meta` is the buffer's protection meta, `mapped` whether
        the buffer maps for writing, `wake` what ends the key wait, and
        `decrypt` the DRM session's decrypt call.  Returns the flow result,
        the SVP chunk list attached to the buffer, if any, and whether the
        protection meta was removed from the buffer. */
    method TransformIp(buffer: array<byte>, meta: Option<ProtectionInfo>, mapped: bool, wake: Wakeup,
                       decrypt: (seq<byte>, seq<byte>) -> Decryption)
      returns (result: FlowReturn, svp: Option<seq<Subsample>>, metaRemoved: bool)
      requires Valid()
      requires wake.ByProtection? ==> selectedProtection.Some?
      requires forall v, c :: |decrypt(v, c).plain| == |c|
      modifies this, buffer
      ensures Valid()
      ensures firstSegProcessed == (old(firstSegProcessed) || hasAamp)
      // free_resources removes the protection meta on every path that read one
      ensures metaRemoved <==> meta.Some?
      // a clear buffer passes untouched, without taking the lock
      ensures meta.None? ==>
        result == FlowOk && svp.None? && buffer[..] == old(buffer[..]) &&
        Gate() == old(Gate()) && Esc() == old(Esc()) && decryptLog == old(decryptLog)
      // no key and no permission to wait: refused at once
      ensures meta.Some? && !old(canWait) && !old(streamReceived) ==>
        result == FlowNotSupported && buffer[..] == old(buffer[..]) &&
        Gate() == old(Gate()) && decryptLog == old(decryptLog)
      // with the key and a session, the sample's layout decides
      ensures meta.Some? && old(streamReceived) && old(hasSession) ==>
        Gate() == old(Gate()) &&
        (result == FlowNotSupported <==> SampleLayout(meta.value, mapped, buffer.Length) == Unsupported)
      // a protected sample waits at the key gate as KeyGate does
      ensures meta.Some? ==> Gate() == GateAfter(old(Gate()), wake)
      // a protected sample is refused unless the key and a session are
      // there once the gate is passed
      ensures meta.Some? && !(streamReceived && hasSession) ==>
        result == FlowNotSupported && buffer[..] == old(buffer[..]) && decryptLog == old(decryptLog)
      // past the gate, the sample is decrypted exactly when its layout has
      // encrypted bytes
      ensures meta.Some? && streamReceived && hasSession ==>
        var layout := SampleLayout(meta.value, mapped, buffer.Length);
        (result == FlowNotSupported <==> layout == Unsupported) &&
        (decryptLog != old(decryptLog) <==> NeedsDecrypt(layout, buffer.Length))
      // decrypt is reached only past the key gate
      ensures decryptLog != old(decryptLog) ==> meta.Some? && streamReceived && hasSession
      ensures decryptLog == old(decryptLog) ==>
        buffer[..] == old(buffer[..]) && Esc() == old(Esc()) && postedErrors == old(postedErrors) &&
        result != FlowError && svp.None?
      ensures decryptLog != old(decryptLog) ==>
        |decryptLog| == |old(decryptLog)| + 1 && decryptLog[..|old(decryptLog)|] == old(decryptLog) &&
        (SampleLayout(meta.value, mapped, buffer.Length).WholeSample? ||
         SampleLayout(meta.value, mapped, buffer.Length).Subsamples?)
      ensures decryptLog != old(decryptLog) ==>
        var layout := SampleLayout(meta.value, mapped, buffer.Length);
        var call := decryptLog[|decryptLog| - 1];
        var d := decrypt(call.0, call.1);
        var step := DecryptStep(old(Esc()), d.code);
        call.0 == layout.iv &&
        Esc() == step.esc && result == (if step.posted then FlowError else FlowOk) &&
        svp == (if d.code == 0 && d.secureHandle
                then Some(SvpChunks(if layout.Subsamples? then layout.entries else [], |call.1|))
                else None) &&
        (layout.WholeSample? ==> call.1 == old(buffer[..]) && buffer[..] == d.plain) &&
        (layout.Subsamples? ==>
          call.1 == Gather(old(buffer[..]), layout.entries) &&
          buffer[..] == (if d.code == 0 && !d.secureHandle then Scatter(old(buffer[..]), layout.entries, d.plain)
                         else old(buffer[..])))
    {
      result := FlowOk;
      svp := None;
      metaRemoved := false;
      if meta.None? {
        MarkFirstSegment();
        return;
      }
      metaRemoved := true;
      var proceed := KeyGate(wake);
      if !proceed {
        result := FlowNotSupported;
        MarkFirstSegment();
        return;
      }
      var layout := SampleLayout(meta.value, mapped, buffer.Length);
      match layout {
        case Unsupported =>
          result := FlowNotSupported;
        case ClearSample =>
        case WholeSample(iv) =>
          result, svp := DecryptWhole(buffer, iv, decrypt);
        case Subsamples(iv, e) =>
          result, svp := DecryptSubsamples(buffer, iv, e, decrypt);
      }
      MarkFirstSegment();
    }

    /** The bookkeeping after a decrypt call returning `code`. */
    method RecordDecrypt(code: int) returns (result: FlowReturn)
      requires Valid()
      modifies this
      ensures Valid()
      ensures Esc() == DecryptStep(old(Esc()), code).esc
      ensures result == (if DecryptStep(old(Esc()), code).posted then FlowError else FlowOk)
      ensures postedErrors == old(postedErrors) + (if result == FlowError then [code] else [])
      ensures Gate() == old(Gate()) && decryptLog == old(decryptLog) && firstSegProcessed == old(firstSegProcessed)
    {
      result := FlowOk;
      if code != 0 {
        decryptFailCount := (decryptFailCount + 1) % TWO_POW_16;
        if decryptFailCount >= DECRYPT_FAILURE_THRESHOLD && notifyDecryptError {
          notifyDecryptError := false;
          postedErrors := postedErrors + [code];
          result := FlowError;
        }
      } else {
        decryptFailCount := 0;
      }
    }
  }

  /** memcpy of `src` into `dst` at offset `at`. */
  method Memcpy(dst: array<byte>, at: nat, src: seq<byte>)
    requires at + |src| <= dst.Length
    modifies dst
    ensures dst[..] == old(dst[..at]) + src + old(dst[at + |src|..])
  {
    forall k | 0 <= k < |src| {
      dst[at + k] := src[k];
    }
  }

  /** memcpy of `src` to the end of the first `at` bytes of `dst`. */
  method Append(dst: array<byte>, at: nat, src: seq<byte>)
    requires at + |src| <= dst.Length
    modifies dst
    ensures dst[..at + |src|] == old(dst[..at]) + src
  {
    ghost var before := dst[..];
    Memcpy(dst, at, src);
    assert dst[..] == before[..at] + src + before[at + |src|..];
  }

  /** The first loop of transform_ip: the encrypted ranges of the sample
      copied, in order, into a fresh buffer of the sample's size. */
  method GatherCipher(data: array<byte>, e: seq<Subsample>) returns (pb: array<byte>, cb: nat)
    requires Span(e) <= data.Length
    ensures fresh(pb) && pb.Length == data.Length
    ensures cb == CipherTotal(e) && cb <= pb.Length
    ensures pb[..cb] == Gather(data[..], e)
  {
    pb := new byte[data.Length];
    var src: nat := 0;
    cb := 0;
    var i := 0;
    while i < |e|
      invariant 0 <= i <= |e| && pb.Length == data.Length
      invariant src == SpanTo(e, i) && cb == CipherTo(e, i)
      invariant src <= Span(e) && cb <= src
      invariant pb[..cb] == GatherTo(data[..], e, i)
    {
      GatherEntry(data, e, i, pb, src, cb);
      src := src + e[i].clear + e[i].cipher;
      cb := cb + e[i].cipher;
      i := i + 1;
    }
  }

  /** One turn of the first loop: entry `i`'s encrypted range appended to
      the `cb` bytes gathered so far. */
  method GatherEntry(data: array<byte>, e: seq<Subsample>, i: nat, pb: array<byte>, src: nat, cb: nat)
    requires i < |e| && Span(e) <= data.Length && pb.Length == data.Length && pb != data
    requires src == SpanTo(e, i) && cb == CipherTo(e, i) && src <= Span(e) && cb <= src
    requires pb[..cb] == GatherTo(data[..], e, i)
    modifies pb
    ensures SpanTo(e, i + 1) <= Span(e) && CipherTo(e, i + 1) <= SpanTo(e, i + 1)
    ensures cb + e[i].cipher == CipherTo(e, i + 1) <= pb.Length
    ensures pb[..cb + e[i].cipher] == GatherTo(data[..], e, i + 1)
  {
    var s := e[i];
    SpanMonotone(e, i + 1, |e|);
    CipherWithinSpan(e, i + 1);
    var chunk := data[src + s.clear..src + s.clear + s.cipher];
    ghost var g := pb[..cb] + chunk;
    assert g == GatherTo(data[..], e, i + 1);
    Append(pb, cb, chunk);
  }

  /** The second loop of transform_ip: the decrypted bytes copied back, in
      order, over the encrypted ranges of the sample. */
  method ScatterPlain(data: array<byte>, e: seq<Subsample>, plain: seq<byte>)
    requires Span(e) <= data.Length && |plain| == CipherTotal(e)
    modifies data
    ensures data[..] == Scatter(old(data[..]), e, plain)
  {
    var dst: nat := 0;
    var src: nat := 0;
    var i := 0;
    while i < |e|
      invariant 0 <= i <= |e|
      invariant dst == SpanTo(e, i) && src == CipherTo(e, i)
      invariant dst <= Span(e) && src <= |plain|
      invariant data[..] == ScatterTo(old(data[..]), e, i, plain)
    {
      var s := e[i];
      SpanMonotone(e, i + 1, |e|);
      ScatterStep(old(data[..]), e, i, plain);
      Memcpy(data, dst + s.clear, plain[src..src + s.cipher]);
      dst := dst + s.clear + s.cipher;
      src := src + s.cipher;
      i := i + 1;
    }
  }
}
