/** The source element (gstaampsrc.cpp): a stub push source whose only
    real job is to carry the `aamp://` / `aamps://` URI the player tunes
    to.  It stores the URI with an `http` scheme in a C string it owns,
    rewrites that string in place when the URI is read back, hands out one
    8-byte buffer per create call, and answers the URI and latency
    queries itself. */
module AampSrc {
  import opened Common

  /** The scheme prefix set_location demands, and the two it writes. */
  const AAMP: string := "aamp"
  const HTTP: string := "http"

  /** The value get_property reports for a NULL location. */
  const UNDEFINED: string := "undefined"

  /** set_location's test: a non-NULL URI whose first four characters
      are "aamp".  A shorter C string ends in its NUL, which differs from
      the next character of "aamp", so it is refused too. */
  predicate Accepts(uri: Option<string>)
  {
    uri.Some? && |uri.value| >= 4 && uri.value[..4] == AAMP
  }

  /** `s` with its first four characters overwritten by `scheme`. */
  function WithScheme(s: string, scheme: string): (r: string)
    requires |s| >= 4 && |scheme| == 4
    ensures |r| == |s| && r[..4] == scheme && r[4..] == s[4..]
  {
    scheme + s[4..]
  }

  /** aamp:// becomes http:// and aamps:// becomes https://; everything
      after the scheme's first four characters is kept. */
  lemma StoredSchemes(rest: string)
    ensures WithScheme(AAMP + "://" + rest, HTTP) == HTTP + "://" + rest
    ensures WithScheme(AAMP + "s://" + rest, HTTP) == HTTP + "s://" + rest
  {
    assert (AAMP + "://" + rest)[4..] == "://" + rest;
    assert (AAMP + "s://" + rest)[4..] == "s://" + rest;
  }

  /** Writing "aamp" back over the stored form gives back the accepted
      URI, and the stored form is no longer accepted. */
  lemma SchemeRoundTrip(uri: string)
    requires Accepts(Some(uri))
    ensures WithScheme(WithScheme(uri, HTTP), AAMP) == uri
    ensures !Accepts(Some(WithScheme(uri, HTTP)))
  {
    var stored := WithScheme(uri, HTTP);
    assert stored[..4] == HTTP;
    assert WithScheme(stored, AAMP) == uri[..4] + uri[4..];
  }

  /** g_strdup: a fresh copy of a string. */
  method StrDup(s: string) returns (a: array<char>)
    ensures fresh(a) && a[..] == s
  {
    a := new char[|s|];
    for i := 0 to |s|
      invariant a[..i] == s[..i]
    {
      a[i] := s[i];
    }
  }

  /** memcpy of a four-character scheme over the start of a string. */
  method OverwriteScheme(a: array<char>, scheme: string)
    requires a.Length >= 4 && |scheme| == 4
    modifies a
    ensures a[..] == WithScheme(old(a[..]), scheme)
  {
    for i := 0 to 4
      invariant a[..i] == scheme[..i] && a[i..] == old(a[..])[i..]
    {
      a[i] := scheme[i];
    }
  }

  datatype FlowReturn = FlowOk | FlowEos

  datatype QueryKind = UriQuery | LatencyQuery | OtherQuery

  /** What a query answers: the URI, the latency (live, min, max), or
      whatever the base class put there. */
  datatype QueryAnswer = UriAnswer(uri: Option<string>) | LatencyAnswer(live: bool, min: nat, max: nat) | ParentAnswer

  /** GstAampSrc: the owned location string (NULL until a URI is set) and
      whether the first buffer has been handed out since READY->PAUSED. */
  class Src {
    var location: array?<char>
    var firstBufferSent: bool

    /** The location as a C string, or None for NULL. */
    function Location(): Option<string>
      reads this, location
    {
      if location == null then None else Some(location[..])
    }

    /** Every stored location came through set_location, so it holds at
        least the four characters the in-place rewrites overwrite. */
    predicate Valid()
      reads this
    {
      location != null ==> location.Length >= 4
    }

    /** gst_aampsrc_init. */
    constructor ()
      ensures Valid() && location == null && !firstBufferSent
    {
      location := null;
      firstBufferSent := false;
    }

    /** set_location: refuse a NULL URI or one not starting with "aamp",
        changing nothing; otherwise store a fresh copy whose first four
        characters are "http". */
    method SetLocation(uri: Option<string>) returns (ok: bool)
      requires Valid()
      modifies this
      ensures Valid()
      ensures ok == Accepts(uri)
      ensures ok ==> fresh(location) && Location() == Some(WithScheme(uri.value, HTTP))
      ensures !ok ==> location == old(location)
      ensures firstBufferSent == old(firstBufferSent)
    {
      if uri.None? {
        return false;
      }
      if |uri.value| < 4 || uri.value[..4] != AAMP {
        return false;
      }
      var copy := StrDup(uri.value);
      OverwriteScheme(copy, HTTP);
      location := copy;
      ok := true;
    }

    /** get_uri: a copy of the location as it is now (NULL for NULL);
        then the stored string's first four characters become "aamp", so
        the next read gives the aamp form back. */
    method GetUri() returns (r: Option<string>)
      requires Valid()
      modifies location
      ensures r == old(Location())
      ensures r.Some? ==> |r.value| >= 4 && Location() == Some(WithScheme(r.value, AAMP))
      ensures r.None? ==> Location() == None
    {
      if location == null {
        return None;
      }
      r := Some(location[..]);
      OverwriteScheme(location, AAMP);
    }

    /** get_property("location"): the location, or "undefined" for NULL. */
    method GetProperty() returns (s: string)
      ensures location == null ==> s == UNDEFINED
      ensures location != null ==> Some(s) == Location()
    {
      if location == null {
        s := UNDEFINED;
      } else {
        s := location[..];
      }
    }

    /** create: the first call after READY->PAUSED marks the first buffer
        as sent; a later call first blocks until PAUSED->READY signals
        (`waited`).  Either way an 8-byte buffer is produced and OK is
        returned: the EOS chosen after the wait is overwritten before the
        return. */
    method Create() returns (ret: FlowReturn, size: nat, waited: bool)
      modifies this
      ensures waited == old(firstBufferSent)
      ensures firstBufferSent
      ensures ret == FlowOk && size == 8
      ensures location == old(location)
    {
      waited := firstBufferSent;
      if firstBufferSent {
        ret := FlowEos;
      } else {
        firstBufferSent := true;
      }
      size := 8;
      ret := FlowOk;
    }

    /** change_state: READY->PAUSED forgets the first buffer; PAUSED->READY
        wakes a blocked create (`wakes`).  The parent class's answer is
        returned. */
    method ChangeState(t: Transition, parentResult: StateChangeReturn) returns (ret: StateChangeReturn, wakes: bool)
      modifies this
      ensures ret == parentResult
      ensures wakes <==> t == PausedToReady
      ensures firstBufferSent == (if t == ReadyToPaused then false else old(firstBufferSent))
      ensures location == old(location)
    {
      wakes := false;
      match t {
        case ReadyToPaused =>
          firstBufferSent := false;
        case PausedToReady =>
          wakes := true;
        case _ =>
      }
      ret := parentResult;
    }

    /** query: the URI query is answered with the stored location, the
        latency query with a live source of zero latency; anything else
        goes to the base class, whose answer is `parentResult`. */
    method Query(q: QueryKind, parentResult: bool) returns (handled: bool, answer: QueryAnswer)
      ensures q == UriQuery ==> handled && answer == UriAnswer(Location())
      ensures q == LatencyQuery ==> handled && answer == LatencyAnswer(true, 0, 0)
      ensures q == OtherQuery ==> handled == parentResult && answer == ParentAnswer
    {
      match q {
        case UriQuery =>
          handled, answer := true, UriAnswer(Location());
        case LatencyQuery =>
          handled, answer := true, LatencyAnswer(true, 0, 0);
        case OtherQuery =>
          handled, answer := parentResult, ParentAnswer;
      }
    }
  }

  /** Setting an aamp URI and reading it back twice: the first read gives
      the http form, the second the URI as it was set. */
  method ReadBackTwice(src: Src, uri: string) returns (first: Option<string>, second: Option<string>)
    requires src.Valid() && Accepts(Some(uri))
    modifies src
    ensures first == Some(WithScheme(uri, HTTP))
    ensures second == Some(uri)
  {
    var ok := src.SetLocation(Some(uri));
    first := src.GetUri();
    second := src.GetUri();
    SchemeRoundTrip(uri);
  }
}
