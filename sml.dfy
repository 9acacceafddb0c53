/**
 * The SML reader: cutting one frame out of the serial byte stream between the start
 * and end markers, checking the reconstructed buffer, and turning the value list of an
 * already decoded frame into a Sample. The binary SML decoder is not part of this model:
 * it is the `parseFrame` parameter, and its output is the `Message` datatype below.
 */
module SmlReader {
  import opened Wrappers
  import opened Common
  import BaseReader

  const Protocol: string := "SML"
  /** Escape sequence followed by the version-1 marker. */
  const StartSeq: seq<byte> := [0x1B, 0x1B, 0x1B, 0x1B, 0x01, 0x01, 0x01, 0x01]
  /** Escape sequence that opens the end marker; checksum and fill count follow it. */
  const EndSeq: seq<byte> := [0x1B, 0x1B, 0x1B, 0x1B]
  /** OBIS code of the server id. */
  const IdObis: string := "1-0:0.0.9"

  predicate EndsWith(s: seq<byte>, suffix: seq<byte>) {
    |suffix| <= |s| && s[|s| - |suffix|..] == suffix
  }

  // ---------------------------------------------------------------------------
  // Reading the stream

  /**
   * pyserial's `read_until(expected)` on the bytes `s` the meter sends: the number of
   * bytes it consumes. It reads one byte at a time and stops as soon as what it has read
   * ends with `expected`, or when the meter falls silent (the end of `s`).
   */
  function ReadUntil(s: seq<byte>, expected: seq<byte>): (n: nat)
    requires |expected| > 0
    ensures n <= |s|
    ensures EndsWith(s[..n], expected) || n == |s|
    ensures forall k :: 0 <= k < n ==> !EndsWith(s[..k], expected)
  {
    ReadUntilFrom(s, expected, 0)
  }

  function ReadUntilFrom(s: seq<byte>, expected: seq<byte>, k: nat): (n: nat)
    requires |expected| > 0 && k <= |s|
    requires forall j :: 0 <= j < k ==> !EndsWith(s[..j], expected)
    ensures k <= n <= |s|
    ensures EndsWith(s[..n], expected) || n == |s|
    ensures forall j :: 0 <= j < n ==> !EndsWith(s[..j], expected)
    decreases |s| - k
  {
    if EndsWith(s[..k], expected) || k == |s| then k
    else ReadUntilFrom(s, expected, k + 1)
  }

  /** `read(4)`: at most four bytes. */
  function ReadAtMost(s: seq<byte>, size: nat): (r: seq<byte>)
    ensures |r| <= size && |r| <= |s| && r == s[..|r|]
    ensures |s| >= size ==> |r| == size
  {
    if |s| <= size then s else s[..size]
  }

  /** Python's `buf[8:-4]`: the buffer without its first eight and last four bytes, empty when too short. */
  function Middle(buf: seq<byte>): (m: seq<byte>)
    ensures |buf| >= 12 ==> m == buf[8..|buf| - 4]
    ensures |buf| < 12 ==> m == []
  {
    var lo := if |buf| < 8 then |buf| else 8;
    var hi := if |buf| < 4 then 0 else |buf| - 4;
    if hi <= lo then [] else buf[lo..hi]
  }

  /** The start check: the buffer begins with the start marker. */
  predicate StartOk(buf: seq<byte>) {
    |buf| >= |StartSeq| && buf[..|StartSeq|] == StartSeq
  }

  /** The end check: the buffer without marker and trailer ends with the end escape. */
  predicate EndOk(buf: seq<byte>) {
    EndsWith(Middle(buf), EndSeq)
  }

  /**
   * The frame the reader reconstructs from the stream `s`: bytes up to the start marker
   * are discarded, the payload runs up to the end escape, and up to four trailer bytes
   * follow. None when either structural check fails.
   */
  function Framed(s: seq<byte>): (r: Option<seq<byte>>)
    ensures r.Some? ==> StartOk(r.value) && EndOk(r.value)
  {
    var n1 := ReadUntil(s, StartSeq);
    var rest := s[n1..];
    var n2 := ReadUntil(rest, EndSeq);
    var trailer := ReadAtMost(rest[n2..], 4);
    var buf := StartSeq + rest[..n2] + trailer;
    if StartOk(buf) && EndOk(buf) then Some(buf) else None
  }

  /** The reconstructed buffer always passes the start check. */
  lemma ReconstructedStartOk(payload: seq<byte>, trailer: seq<byte>)
    ensures StartOk(StartSeq + payload + trailer)
  {
    assert (StartSeq + payload + trailer)[..|StartSeq|] == StartSeq;
  }

  /** With a full trailer, the end check passes exactly when the payload ends with the end escape. */
  lemma EndCheckIff(payload: seq<byte>, trailer: seq<byte>)
    requires |trailer| == 4
    ensures EndOk(StartSeq + payload + trailer) <==> EndsWith(payload, EndSeq)
  {
    var buf := StartSeq + payload + trailer;
    assert Middle(buf) == payload by {
      assert buf[8..|buf| - 4] == payload;
    }
  }

  /**
   * A complete frame at the head of the stream is cut out exactly: start marker, a body
   * in which the end escape does not occur before its place, the end escape and a
   * four-byte trailer, whatever follows.
   */
  lemma FramedComplete(body: seq<byte>, trailer: seq<byte>, tail: seq<byte>)
    requires |trailer| == 4
    requires forall k :: 0 <= k < |body| + 4 ==> !EndsWith((body + EndSeq)[..k], EndSeq)
    ensures Framed(StartSeq + body + EndSeq + trailer + tail) == Some(StartSeq + body + EndSeq + trailer)
  {
    var s := StartSeq + body + EndSeq + trailer + tail;
    var rest := body + EndSeq + trailer + tail;
    assert s[..8] == StartSeq;
    assert EndsWith(s[..8], StartSeq);
    var n1 := ReadUntil(s, StartSeq);
    assert n1 == 8;
    assert s[n1..] == rest;
    var payload := body + EndSeq;
    assert rest[..|payload|] == payload;
    assert EndsWith(payload, EndSeq);
    var n2 := ReadUntil(rest, EndSeq);
    assert forall k :: 0 <= k < |payload| ==> rest[..k] == payload[..k];
    assert n2 == |payload|;
    assert rest[n2..] == trailer + tail;
    assert ReadAtMost(trailer + tail, 4) == trailer;
    ReconstructedStartOk(payload, trailer);
    EndCheckIff(payload, trailer);
    assert StartSeq + rest[..n2] + trailer == StartSeq + body + EndSeq + trailer;
  }

  // ---------------------------------------------------------------------------
  // Decoded frames

  /**
   * One message of a frame: the value list of its `messageBody`, or None when it has no
   * body. A body without `valList` reads as the empty list.
   */
  datatype Message = Message(body: Option<seq<Entry>>)

  /** The id the reader records from the value of the server-id entry. */
  function IdOf(v: Value): string {
    match v
    case Text(s) => s
    case _ => ""
  }

  /** An entry without a `unit` key whose OBIS code contains the server-id code: it names the meter. */
  predicate IsIdEntry(e: Entry) {
    !HasUnitKey(e) && IsSubstring(IdObis, Obis(e))
  }

  function ChannelOf(e: Entry): ChannelValue {
    ChannelValue(Obis(e), EntryValue(e), UnitOf(e))
  }

  /** An entry whose `unit` key holds None is a channel without a unit, never the meter's id. */
  lemma NullUnitIsChannel(e: Entry)
    requires e.unit.UnitNone?
    ensures !IsIdEntry(e) && ChannelOf(e) == ChannelValue(Obis(e), EntryValue(e), None)
  {
  }

  function BodyEntries(m: Message): seq<Entry> {
    if m.body.Some? then m.body.value else []
  }

  /** All value-list entries of the frame, message by message. */
  function EntriesOf(frame: seq<Message>): seq<Entry> {
    if frame == [] then [] else EntriesOf(frame[..|frame| - 1]) + BodyEntries(frame[|frame| - 1])
  }

  /** The channels the entries give: every entry that is not an id entry, in order. */
  function ChannelsOf(es: seq<Entry>): seq<ChannelValue> {
    if es == [] then []
    else
      var e := es[|es| - 1];
      ChannelsOf(es[..|es| - 1]) + (if IsIdEntry(e) then [] else [ChannelOf(e)])
  }

  /** The id of the last id entry, or `id` when there is none. */
  function MeterIdOf(es: seq<Entry>, id: string): string {
    if es == [] then id
    else if IsIdEntry(es[|es| - 1]) then IdOf(EntryValue(es[|es| - 1]))
    else MeterIdOf(es[..|es| - 1], id)
  }

  /** The sample the entries make: none without entries, else a fresh sample with their id and channels. */
  function SampleOf(es: seq<Entry>, now: int): Option<Sample> {
    if es == [] then None else Some(Sample(now, MeterIdOf(es, NewSample(now).meterId), ChannelsOf(es)))
  }

  /**
   * `__parse`: walk the messages and their value lists in order, creating the sample at
   * the first entry; entries with a `unit` key and entries without one that are not the server id
   * become channels, the server-id entry sets the meter id.
   */
  method Parse(frame: seq<Message>, now: int) returns (r: Option<Sample>)
    ensures r == SampleOf(EntriesOf(frame), now)
  {
    r := None;
    var i := 0;
    while i < |frame|
      invariant 0 <= i <= |frame|
      invariant r == SampleOf(EntriesOf(frame[..i]), now)
    {
      var done := EntriesOf(frame[..i]);
      assert frame[..i + 1][..i] == frame[..i];
      assert EntriesOf(frame[..i + 1]) == done + BodyEntries(frame[i]);
      var m := frame[i];
      if m.body.Some? {
        var list := m.body.value;
        var j := 0;
        assert done + list[..0] == done;
        while j < |list|
          invariant 0 <= j <= |list|
          invariant r == SampleOf(done + list[..j], now)
        {
          var e := list[j];
          var seen := done + list[..j];
          assert done + list[..j + 1] == seen + [e];
          assert (seen + [e])[..|seen|] == seen;
          assert SampleOf(seen + [e], now) == Some(Sample(now,
            if IsIdEntry(e) then IdOf(EntryValue(e)) else MeterIdOf(seen, ""),
            ChannelsOf(seen) + (if IsIdEntry(e) then [] else [ChannelOf(e)])));
          if r.None? {
            r := Some(NewSample(now));
          }
          var obis := Obis(e);
          var value := EntryValue(e);
          if HasUnitKey(e) {
            r := Some(r.value.(channels := r.value.channels + [ChannelValue(obis, value, UnitOf(e))]));
          } else if IsSubstring(IdObis, obis) {
            r := Some(r.value.(meterId := IdOf(value)));
            assert ChannelsOf(seen) + [] == ChannelsOf(seen);
          } else {
            r := Some(r.value.(channels := r.value.channels + [ChannelValue(obis, value, None)]));
          }
          j := j + 1;
        }
        assert list[..j] == list;
      } else {
        assert done + BodyEntries(m) == done;
      }
      i := i + 1;
    }
    assert frame[..i] == frame;
  }

  /** The frame yields no sample exactly when no message has a non-empty value list. */
  lemma {:induction false} NoEntriesIff(frame: seq<Message>)
    ensures EntriesOf(frame) == [] <==> forall i :: 0 <= i < |frame| ==> BodyEntries(frame[i]) == []
  {
    if frame != [] {
      var init := frame[..|frame| - 1];
      NoEntriesIff(init);
      assert forall i :: 0 <= i < |init| ==> init[i] == frame[i];
    }
  }

  /** Channels keep the order of the entries: the channels of a concatenation concatenate. */
  lemma {:induction false} ChannelsAppend(a: seq<Entry>, b: seq<Entry>)
    ensures ChannelsOf(a + b) == ChannelsOf(a) + ChannelsOf(b)
    decreases |b|
  {
    if b != [] {
      var b' := b[..|b| - 1];
      assert (a + b)[..|a + b| - 1] == a + b';
      ChannelsAppend(a, b');
    } else {
      assert a + b == a;
    }
  }

  /**
   * Exactly the entries that are not id entries become channels: every channel comes from
   * such an entry, and every such entry gives a channel with its own name, value and unit.
   */
  lemma {:induction false} ChannelsAreNonIdEntries(es: seq<Entry>)
    ensures forall c :: c in ChannelsOf(es) ==> exists e :: e in es && !IsIdEntry(e) && c == ChannelOf(e)
    ensures forall e :: e in es && !IsIdEntry(e) ==> ChannelOf(e) in ChannelsOf(es)
  {
    if es != [] {
      var init := es[..|es| - 1];
      ChannelsAreNonIdEntries(init);
      assert es == init + [es[|es| - 1]];
      forall c | c in ChannelsOf(es)
        ensures exists e :: e in es && !IsIdEntry(e) && c == ChannelOf(e)
      {
        if c in ChannelsOf(init) {
          var e :| e in init && !IsIdEntry(e) && c == ChannelOf(e);
          assert e in es;
        }
      }
    }
  }

  /** The last id entry wins: an id entry later in the list overrides every earlier one. */
  lemma {:induction false} LastIdWins(a: seq<Entry>, b: seq<Entry>, id: string)
    ensures (exists e :: e in b && IsIdEntry(e)) ==> MeterIdOf(a + b, id) == MeterIdOf(b, id)
    ensures (forall e :: e in b ==> !IsIdEntry(e)) ==> MeterIdOf(a + b, id) == MeterIdOf(a, id)
    decreases |b|
  {
    if b == [] {
      assert a + b == a;
    } else {
      var b' := b[..|b| - 1];
      var last := b[|b| - 1];
      assert (a + b)[..|a + b| - 1] == a + b';
      assert (a + b)[|a + b| - 1] == last;
      LastIdWins(a, b', id);
      assert b == b' + [last];
      if !IsIdEntry(last) && exists e :: e in b && IsIdEntry(e) {
        var e :| e in b && IsIdEntry(e);
        assert e in b';
      }
    }
  }

  // ---------------------------------------------------------------------------
  // Fetching, polling, discovery

  /**
   * `__fetch_sample` on a port that either fails to open (None) or delivers the bytes
   * `stream`, with the frame decoder `parseFrame`: a failed check, a frame the decoder
   * rejects and a frame without value lists all give None.
   */
  function FetchSample(stream: Option<seq<byte>>, parseFrame: seq<byte> -> Option<seq<Message>>, now: int)
    : (r: Option<Sample>)
    ensures r.Some? <==>
      stream.Some? && Framed(stream.value).Some? && parseFrame(Framed(stream.value).value).Some?
      && EntriesOf(parseFrame(Framed(stream.value).value).value) != []
    ensures r.Some? ==> r.value.time == now
  {
    if stream.None? then None
    else
      match Framed(stream.value)
      case None => None
      case Some(buf) =>
        match parseFrame(buf)
        case None => None
        case Some(frame) => SampleOf(EntriesOf(frame), now)
  }

  /** `poll`: the fetched sample if its meter id matches; the reader's cache is not involved. */
  function Poll(expected: Option<string>, stream: Option<seq<byte>>,
                parseFrame: seq<byte> -> Option<seq<Message>>, now: int): (r: Option<Sample>)
    ensures r.Some? <==> FetchSample(stream, parseFrame, now).Some?
                         && BaseReader.MeterIdMatches(expected, FetchSample(stream, parseFrame, now).value)
    ensures r.Some? ==> r == FetchSample(stream, parseFrame, now)
  {
    var fetched := FetchSample(stream, parseFrame, now);
    if fetched.Some? && BaseReader.MeterIdMatches(expected, fetched.value) then fetched else None
  }

  /** `_discover`: a device of this protocol exactly when a sample was fetched. */
  function Discover(fetched: Option<Sample>, serialUrl: string): (r: Option<Device>)
    ensures r.Some? <==> fetched.Some?
    ensures r.Some? ==> r.value.identifier == fetched.value.meterId && r.value.tty == serialUrl
                        && r.value.protocol == Protocol && r.value.channels == fetched.value.channels
  {
    if fetched.Some?
    then Some(Device(fetched.value.meterId, serialUrl, Protocol, fetched.value.channels))
    else None
  }
}
