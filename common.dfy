/** Shared vocabulary for the element models: bytes, optional values, the
    fixed-width integer conversions the C and C++ code performs implicitly,
    and the substring search of std::string. */
module Common {

  /** An octet of a mapped buffer. */
  newtype byte = x: int | 0 <= x < 0x100

  datatype Option<+T> = None | Some(value: T)

  const TWO_POW_32: int := 0x1_0000_0000
  const TWO_POW_64: int := 0x1_0000_0000_0000_0000

  /** std::string::npos, the largest value of a 64-bit size_t. */
  const NPOS: int := TWO_POW_64 - 1

  /** GST_SECOND and GST_MSECOND, in nanoseconds. */
  const GST_SECOND: nat := 1_000_000_000
  const GST_MSECOND: nat := 1_000_000

  /** GST_CLOCK_TIME_NONE, that is (guint64) -1. */
  const CLOCK_TIME_NONE: nat := TWO_POW_64 - 1

  predicate IsU64(x: int) { 0 <= x < TWO_POW_64 }

  predicate IsI64(x: int) { -TWO_POW_64 / 2 <= x < TWO_POW_64 / 2 }

  /** Unsigned 64-bit wrap-around (guint64 / size_t arithmetic). */
  function Wrap64(x: int): (r: nat)
    ensures IsU64(r)
    ensures IsU64(x) ==> r == x
    ensures (r - x) % TWO_POW_64 == 0
  {
    x % TWO_POW_64
  }

  /** Reinterpret a guint64 as a gint64 (static_cast<gint64>). */
  function AsI64(u: int): (r: int)
    requires IsU64(u)
    ensures IsI64(r)
    ensures r < 0 <==> u >= TWO_POW_64 / 2
    ensures Wrap64(r) == u
  {
    if u >= TWO_POW_64 / 2 then u - TWO_POW_64 else u
  }

  /** Narrowing of an integer value to a 32-bit `int` (two's complement). */
  function NarrowToI32(x: int): (r: int)
    ensures -TWO_POW_32 / 2 <= r < TWO_POW_32 / 2
    ensures (r - x) % TWO_POW_32 == 0
    ensures -TWO_POW_32 / 2 <= x < TWO_POW_32 / 2 ==> r == x
  {
    var m := x % TWO_POW_32;
    if m >= TWO_POW_32 / 2 then m - TWO_POW_32 else m
  }

  /** C and C++ integer division, which truncates toward zero (Dafny's `/`
      is Euclidean). */
  function TruncDiv(a: int, b: nat): (r: int)
    requires b > 0
    ensures a >= 0 ==> 0 <= r * b <= a < (r + 1) * b
    ensures a < 0 ==> (r - 1) * b < a <= r * b <= 0
  {
    if a >= 0 then DivBounds(a, b); a / b else DivBounds(-a, b); -((-a) / b)
  }

  lemma DivBounds(a: nat, b: nat)
    requires b > 0
    ensures 0 <= (a / b) * b <= a < (a / b + 1) * b
  {
    var q := a / b;
    var r := a % b;
    assert a == q * b + r && 0 <= r < b;
    assert (q + 1) * b == q * b + b;
    assert q >= 0;
  }

  // Big-endian integers in byte buffers.

  function U16Be(b: seq<byte>, i: nat): nat
    requires i + 2 <= |b|
  {
    (b[i] as int) * 0x100 + b[i + 1] as int
  }

  function U32Be(b: seq<byte>, i: nat): nat
    requires i + 4 <= |b|
  {
    (((b[i] as int) * 0x100 + b[i + 1] as int) * 0x100 + b[i + 2] as int) * 0x100 + b[i + 3] as int
  }

  /** The low eight bits of `x`. */
  function Octet(x: nat): byte
  {
    (x % 0x100) as byte
  }

  lemma Reassemble16(x: nat)
    requires x < 0x1_0000
    ensures (Octet(x / 0x100) as int) * 0x100 + Octet(x) as int == x
  {
  }

  lemma Reassemble32(x: nat)
    requires x < TWO_POW_32
    ensures (((Octet(x / 0x100_0000) as int) * 0x100 + Octet(x / 0x1_0000) as int) * 0x100
             + Octet(x / 0x100) as int) * 0x100 + Octet(x) as int == x
  {
    var h := x / 0x1_0000;
    var l := x % 0x1_0000;
    assert x == h * 0x1_0000 + l && h < 0x1_0000;
    assert (Octet(h / 0x100) as int) * 0x100 + Octet(h) as int == h by {
      Reassemble16(h);
    }
    assert (Octet(l / 0x100) as int) * 0x100 + Octet(l) as int == l by {
      Reassemble16(l);
    }
    assert x / 0x100_0000 == h / 0x100 && x / 0x1_0000 == h;
    assert x / 0x100 == h * 0x100 + l / 0x100 && Octet(x / 0x100) == Octet(l / 0x100) by {
      assert l == (l / 0x100) * 0x100 + l % 0x100;
    }
    assert Octet(x) == Octet(l);
  }

  /** The four big-endian octets of a 32-bit value. */
  function Be32(x: nat): (r: seq<byte>)
    requires x < TWO_POW_32
    ensures |r| == 4 && U32Be(r, 0) == x
  {
    Reassemble32(x);
    [Octet(x / 0x100_0000), Octet(x / 0x1_0000), Octet(x / 0x100), Octet(x)]
  }

  /** A slice of a slice is a slice. */
  lemma SliceOfSlice<T>(s: seq<T>, a: nat, b: nat, i: nat, j: nat)
    requires a <= b <= |s| && i <= j <= b - a
    ensures s[a..b][i..j] == s[a + i .. a + j]
  {
    var x := s[a..b][i..j];
    var y := s[a + i .. a + j];
    forall k | 0 <= k < |x|
      ensures x[k] == y[k]
    {
    }
  }

  /** `pat` occurs in `s` at index `i`. */
  predicate OccursAt<T(==)>(s: seq<T>, pat: seq<T>, i: int)
  {
    0 <= i && i + |pat| <= |s| && s[i..i + |pat|] == pat
  }

  /** std::string::find(pat, from) for a non-empty pattern: the first
      occurrence at or after `from`, None standing for npos. */
  function Find<T(==)>(s: seq<T>, pat: seq<T>, from: nat): (r: Option<nat>)
    requires |pat| > 0
    ensures r.Some? ==> from <= r.value && OccursAt(s, pat, r.value)
    ensures forall i :: from <= i && (r.None? || i < r.value) ==> !OccursAt(s, pat, i)
    decreases |s| - from
  {
    if from + |pat| > |s| then None
    else if s[from..from + |pat|] == pat then Some(from)
    else Find(s, pat, from + 1)
  }

  /** std::string::find_first_of(c, from) for a single character. */
  function FindChar<T(==)>(s: seq<T>, c: T, from: nat): (r: Option<nat>)
    ensures r.Some? ==> from <= r.value < |s| && s[r.value] == c
    ensures forall i :: from <= i < |s| && (r.None? || i < r.value) ==> s[i] != c
    decreases |s| - from
  {
    if from >= |s| then None
    else if s[from] == c then Some(from)
    else FindChar(s, c, from + 1)
  }

  /** std::string::substr(pos, len): at most `len` characters from `pos`. */
  function Substr<T>(s: seq<T>, pos: nat, len: nat): (r: seq<T>)
    requires pos <= |s|
    ensures |r| <= len && pos + |r| <= |s| && r == s[pos..pos + |r|]
    ensures pos + len <= |s| ==> |r| == len
    ensures pos + len > |s| ==> r == s[pos..]
  {
    if pos + len <= |s| then s[pos..pos + len] else s[pos..]
  }

  /** A field value of a caps structure; a string field may hold NULL. */
  datatype Value = Text(s: string) | NullText | Other(id: int)

  /** A GstStructure: its name and fields.  Structures compare by name and
      field set, whatever the field order (gst_structure_is_equal). */
  datatype Structure = Structure(name: string, fields: map<string, Value>)

  /** GstPadDirection: the pad whose caps are being transformed. */
  datatype PadDirection = SrcPad | SinkPad

  /** GstStateChange: the state change requested of an element. */
  datatype Transition =
    | NullToReady | ReadyToPaused | PausedToPlaying | PlayingToPaused | PausedToReady | ReadyToNull

  /** GstStateChangeReturn. */
  datatype StateChangeReturn = Success | Async | NoPreroll | Failure
}
