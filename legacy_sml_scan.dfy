/**
 * Cutting an SML frame out of the serial stream as the legacy SML reader does
 * (`device_lib/meter_sml.py`, `poll`): a search for the start marker byte by byte, then
 * bytes appended until the part after the start marker, less its last four bytes, ends
 * with the end marker. The stream is the bytes the port delivers before the reader's
 * timeout; when it runs out the timeout has struck.
 */
module LegacySmlScan {
  import opened Wrappers
  import opened Common
  import opened SmlReader

  /** The bytes the start search keeps: 0x1B and 0x01. */
  predicate Marker(b: byte) {
    b == 0x1B || b == 0x01
  }

  // ---------------------------------------------------------------------------
  // The start search as written

  /** The start search's buffer after reading `s`: a marker byte is appended, any other byte empties it. */
  function AsWrittenBuf(s: seq<byte>): seq<byte> {
    if s == [] then []
    else if Marker(s[|s| - 1]) then AsWrittenBuf(s[..|s| - 1]) + [s[|s| - 1]]
    else []
  }

  /** The buffer is a suffix of the stream read so far. */
  lemma {:induction false} AsWrittenBufSuffix(s: seq<byte>)
    ensures |AsWrittenBuf(s)| <= |s| && AsWrittenBuf(s) == s[|s| - |AsWrittenBuf(s)|..]
  {
    if s != [] && Marker(s[|s| - 1]) {
      var init := s[..|s| - 1];
      AsWrittenBufSuffix(init);
      var b := AsWrittenBuf(init);
      assert s[|s| - |b| - 1..] == init[|init| - |b|..] + [s[|s| - 1]];
    }
  }

  /** The byte before the buffer, if any, is not a marker byte: the buffer is the longest run of them that ends the stream. */
  lemma {:induction false} AsWrittenBufMaximal(s: seq<byte>)
    ensures |AsWrittenBuf(s)| < |s| ==> !Marker(s[|s| - |AsWrittenBuf(s)| - 1])
  {
    if s != [] && Marker(s[|s| - 1]) {
      var init := s[..|s| - 1];
      AsWrittenBufMaximal(init);
      AsWrittenBufSuffix(init);
      var n := |AsWrittenBuf(init)|;
      assert n < |init| ==> s[|s| - n - 2] == init[|init| - n - 1];
    }
  }

  /** The buffer is exactly the run of marker bytes that ends the stream. */
  lemma {:induction false} AsWrittenBufRun(s: seq<byte>, m: nat)
    requires m <= |s| && (forall k :: |s| - m <= k < |s| ==> Marker(s[k]))
    requires m == |s| || !Marker(s[|s| - m - 1])
    ensures AsWrittenBuf(s) == s[|s| - m..]
  {
    if m > 0 {
      var init := s[..|s| - 1];
      RunInit(s, m);
      AsWrittenBufRun(init, m - 1);
      assert s[|s| - m..] == init[|init| - (m - 1)..] + [s[|s| - 1]];
    }
  }

  /** Dropping the last byte of a run of marker bytes leaves a run one shorter. */
  lemma RunInit(s: seq<byte>, m: nat)
    requires 0 < m <= |s| && (forall k :: |s| - m <= k < |s| ==> Marker(s[k]))
    requires m == |s| || !Marker(s[|s| - m - 1])
    ensures var init := s[..|s| - 1];
      && (forall k :: |init| - (m - 1) <= k < |init| ==> Marker(init[k]))
      && (m - 1 == |init| || !Marker(init[|init| - (m - 1) - 1]))
  {
    var init := s[..|s| - 1];
    assert forall k :: 0 <= k < |init| ==> init[k] == s[k];
  }

  /** Every byte of the start marker is a marker byte. */
  lemma StartSeqMarkers()
    ensures forall k :: 0 <= k < |StartSeq| ==> Marker(StartSeq[k])
  {
  }

  /**
   * The search as written stops after `s` exactly when `s` ends with the start marker and
   * the byte before it, if any, is not a marker byte.
   */
  lemma AsWrittenRecognises(s: seq<byte>)
    ensures AsWrittenBuf(s) == StartSeq
        <==> |s| >= 8 && s[|s| - 8..] == StartSeq && (|s| == 8 || !Marker(s[|s| - 9]))
  {
    AsWrittenBufSuffix(s);
    AsWrittenBufMaximal(s);
    if |s| >= 8 && s[|s| - 8..] == StartSeq && (|s| == 8 || !Marker(s[|s| - 9])) {
      StartSeqMarkers();
      forall k | |s| - 8 <= k < |s| ensures Marker(s[k]) {
        assert s[k] == s[|s| - 8..][k - (|s| - 8)];
      }
      AsWrittenBufRun(s, 8);
    }
  }

  /** A start marker right after a marker byte is never recognised where it ends. */
  lemma StartAfterMarkerMissed(s: seq<byte>, k: nat)
    requires 9 <= k <= |s| && s[k - 8..k] == StartSeq && Marker(s[k - 9])
    ensures AsWrittenBuf(s[..k]) != StartSeq
  {
    AsWrittenRecognises(s[..k]);
    assert s[..k][k - 9] == s[k - 9];
  }

  /** The stream `01 1B 1B 1B 1B 01 01 01 01` holds the start marker, yet the search as written never stops on it. */
  lemma MissedStartExample()
    ensures var x: seq<byte> := [0x01] + StartSeq;
      forall j :: 0 <= j <= |x| ==> AsWrittenBuf(x[..j]) != StartSeq
  {
    var x: seq<byte> := [0x01] + StartSeq;
    forall j | 0 <= j <= |x| ensures AsWrittenBuf(x[..j]) != StartSeq {
      AsWrittenBufSuffix(x[..j]);
      if j == 8 {
        AsWrittenRecognises(x[..8]);
        assert x[..8][0] != StartSeq[0];
      } else if j == 9 {
        StartAfterMarkerMissed(x, 9);
      }
    }
  }

  /**
   * The start search of `poll` as written: stops when the buffer equals the start marker
   * or the stream runs out, at the first such point.
   */
  method StartScanAsWritten(s: seq<byte>) returns (buf: seq<byte>, pos: nat)
    ensures pos <= |s| && buf == AsWrittenBuf(s[..pos])
    ensures buf == StartSeq || pos == |s|
    ensures forall j :: 0 <= j < pos ==> AsWrittenBuf(s[..j]) != StartSeq
  {
    buf, pos := [], 0;
    while buf != StartSeq && pos < |s|
      invariant pos <= |s| && buf == AsWrittenBuf(s[..pos])
      invariant forall j :: 0 <= j < pos ==> AsWrittenBuf(s[..j]) != StartSeq
    {
      assert s[..pos + 1][..pos] == s[..pos];
      var sign := s[pos];
      if sign == 0x1B || sign == 0x01 {
        buf := buf + [sign];
      } else {
        buf := [];
      }
      pos := pos + 1;
    }
  }

  // ---------------------------------------------------------------------------
  // The start search, corrected: the start marker wherever it ends

  /** Whether the start marker ends at position `i` of the stream. */
  predicate StartEndsAt(s: seq<byte>, i: int) {
    8 <= i <= |s| && s[i - 8..i] == StartSeq
  }

  /** The first position from `i` on where the start marker ends. */
  function StartFrom(s: seq<byte>, i: nat): (r: Option<nat>)
    requires i <= |s|
    ensures r.Some? ==> i <= r.value <= |s| && StartEndsAt(s, r.value)
    ensures r.Some? ==> forall j :: i <= j < r.value ==> !StartEndsAt(s, j)
    ensures r.None? ==> forall j :: i <= j <= |s| ==> !StartEndsAt(s, j)
    decreases |s| - i
  {
    if StartEndsAt(s, i) then Some(i)
    else if i == |s| then None
    else StartFrom(s, i + 1)
  }

  /** The last `min(8, i)` bytes read. */
  function Window(s: seq<byte>, i: nat): seq<byte>
    requires i <= |s|
  {
    if i < 8 then s[..i] else s[i - 8..i]
  }

  /**
   * The start search corrected: a sliding window of the last eight bytes, so that a start
   * marker is found wherever it ends; stops at the first one.
   */
  method FindStart(s: seq<byte>) returns (found: bool, pos: nat)
    ensures found <==> StartFrom(s, 0).Some?
    ensures found ==> pos == StartFrom(s, 0).value
  {
    var buf: seq<byte> := [];
    pos := 0;
    while buf != StartSeq && pos < |s|
      invariant pos <= |s| && buf == Window(s, pos)
      invariant StartFrom(s, 0) == StartFrom(s, pos)
    {
      assert !StartEndsAt(s, pos);
      if |buf| == 8 {
        buf := buf[1..] + [s[pos]];
        assert s[pos - 7..pos + 1] == s[pos - 8..pos][1..] + [s[pos]];
      } else {
        buf := buf + [s[pos]];
        assert s[..pos + 1] == s[..pos] + [s[pos]];
      }
      pos := pos + 1;
    }
    found := buf == StartSeq;
    assert found <==> StartEndsAt(s, pos);
  }

  // ---------------------------------------------------------------------------
  // The end search

  /** `buf[8:-4].endswith(END_SEQ)`. */
  predicate EndsFrame(buf: seq<byte>) {
    |buf| >= 16 && buf[|buf| - 8..|buf| - 4] == EndSeq
  }

  /** After a start marker ending at `p`, the buffer holding the stream up to `k` ends a frame exactly when the end marker sits four bytes before `k`, at least eight bytes after `p`. */
  lemma EndsFrameAt(s: seq<byte>, p: nat, k: nat)
    requires p <= k <= |s|
    ensures EndsFrame(StartSeq + s[p..k]) <==> k >= p + 8 && s[k - 8..k - 4] == EndSeq
  {
    var buf := StartSeq + s[p..k];
    if k >= p + 8 {
      forall j | k - 8 <= j < k - 4 ensures buf[j - p + 8] == s[j] {
        assert buf[j - p + 8] == s[p..k][j - p];
      }
      assert buf[|buf| - 8..|buf| - 4] == s[k - 8..k - 4];
    }
  }

  /** The first position from `k` on where the frame started at `p` ends. */
  function FrameEnd(s: seq<byte>, p: nat, k: nat): (r: Option<nat>)
    requires p <= k <= |s|
    ensures r.Some? ==> k <= r.value <= |s| && EndsFrame(StartSeq + s[p..r.value])
    ensures r.Some? ==> forall j :: k <= j < r.value ==> !EndsFrame(StartSeq + s[p..j])
    ensures r.None? ==> forall j :: k <= j <= |s| ==> !EndsFrame(StartSeq + s[p..j])
    decreases |s| - k
  {
    EndsFrameAt(s, p, k);
    if EndsFrame(StartSeq + s[p..k]) then Some(k)
    else if k == |s| then None
    else FrameEnd(s, p, k + 1)
  }

  /** The end search of `poll`: append every byte until the buffer ends a frame or the stream runs out. */
  method EndScan(s: seq<byte>, p: nat) returns (buf: seq<byte>, k: nat)
    requires p <= |s|
    ensures p <= k <= |s| && buf == StartSeq + s[p..k]
    ensures EndsFrame(buf) <==> FrameEnd(s, p, p).Some?
    ensures EndsFrame(buf) ==> k == FrameEnd(s, p, p).value
  {
    buf, k := StartSeq, p;
    while !EndsFrame(buf) && k < |s|
      invariant p <= k <= |s| && buf == StartSeq + s[p..k]
      invariant FrameEnd(s, p, p) == FrameEnd(s, p, k)
    {
      assert s[p..k + 1] == s[p..k] + [s[k]];
      buf := buf + [s[k]];
      k := k + 1;
    }
  }

  /** The frame `poll` hands to the decoder: from the first start marker to the first end, if both occur. */
  function ReadFrame(s: seq<byte>): Option<seq<byte>> {
    match StartFrom(s, 0)
    case None => None
    case Some(p) =>
      match FrameEnd(s, p, p)
      case None => None
      case Some(k) => Some(StartSeq + s[p..k])
  }

  /**
   * A frame begins with the start marker, passes the end check, is a piece of the stream
   * that begins with the first start marker, and no shorter piece passes the check.
   */
  lemma ReadFrameSpec(s: seq<byte>)
    ensures ReadFrame(s).Some? <==> StartFrom(s, 0).Some? && FrameEnd(s, StartFrom(s, 0).value, StartFrom(s, 0).value).Some?
    ensures ReadFrame(s).Some? ==>
      var b := ReadFrame(s).value;
      var p := StartFrom(s, 0).value;
      && b[..8] == StartSeq && EndsFrame(b)
      && b[8..] == s[p..p + |b| - 8]
      && s[p - 8..p] == StartSeq
      && forall j :: p <= j < p + |b| - 8 ==> !EndsFrame(StartSeq + s[p..j])
  {
  }

  /** The search and the end check of `poll`, with the start search corrected. */
  method ReadFrameFrom(s: seq<byte>) returns (r: Option<seq<byte>>)
    ensures r == ReadFrame(s)
  {
    var found, p := FindStart(s);
    if !found {
      return None;
    }
    var buf, k := EndScan(s, p);
    if EndsFrame(buf) {
      r := Some(buf);
    } else {
      r := None;
    }
  }
}
