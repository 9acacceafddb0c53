/**
 * The exchange of `PlainReader._fetch_untracked` on an abstract serial port: the
 * optional wake-up at the initial speed, the switch to the data speed, decoding of the
 * two lines read, and `_discover`.
 */
module PlainReader {
  import opened Wrappers
  import opened Common
  import opened PlainCodec
  import Utf8

  const Protocol: string := "PLAIN"
  /** The request message `/?!` CR LF. */
  const StartSeq: seq<byte> := [0x2F, 0x3F, 0x21, 0x0D, 0x0A]
  const DefaultBaudrate: int := 2400
  const DefaultInitialBaudrate: int := 300
  const DefaultWakeupZeros: int := 40

  /** The reader's settings: wake-up zeros, request speed and data speed. */
  datatype Config = Config(wakeupZeros: int, initialBaudrate: int, baudrate: int)

  const DefaultConfig: Config := Config(DefaultWakeupZeros, DefaultInitialBaudrate, DefaultBaudrate)

  function Zeros(n: nat): (z: seq<byte>)
    ensures |z| == n && forall i :: 0 <= i < n ==> z[i] == 0
  {
    seq(n, _ => 0)
  }

  /** What one exchange does on the port, in order. */
  datatype PortEvent = BaudSet(baud: int) | Wrote(data: seq<byte>) | Flushed | LineRead(line: seq<byte>)

  /** The `k`-th line the meter sends, or the empty line a read timeout returns. */
  function LineAt(lines: seq<seq<byte>>, k: nat): seq<byte> {
    if k < |lines| then lines[k] else []
  }

  /** A serial port: whether it opens, its speed, the events so far and the lines still to come. */
  class Port {
    const opens: bool
    var baudrate: int
    var trace: seq<PortEvent>
    var pending: seq<seq<byte>>

    constructor (opens: bool, baudrate: int, lines: seq<seq<byte>>)
      ensures this.opens == opens && this.baudrate == baudrate && trace == [] && pending == lines
    {
      this.opens := opens;
      this.baudrate := baudrate;
      trace := [];
      pending := lines;
    }

    method SetBaudrate(b: int)
      modifies this
      ensures baudrate == b && trace == old(trace) + [BaudSet(b)] && pending == old(pending)
    {
      baudrate := b;
      trace := trace + [BaudSet(b)];
    }

    method Write(data: seq<byte>)
      modifies this
      ensures baudrate == old(baudrate) && trace == old(trace) + [Wrote(data)] && pending == old(pending)
    {
      trace := trace + [Wrote(data)];
    }

    method Flush()
      modifies this
      ensures baudrate == old(baudrate) && trace == old(trace) + [Flushed] && pending == old(pending)
    {
      trace := trace + [Flushed];
    }

    /** `readline()`: the next line, or nothing once the meter has gone quiet. */
    method ReadLine() returns (line: seq<byte>)
      modifies this
      ensures line == LineAt(old(pending), 0)
      ensures pending == (if old(pending) == [] then [] else old(pending)[1..])
      ensures baudrate == old(baudrate) && trace == old(trace) + [LineRead(line)]
    {
      if pending == [] {
        line := [];
      } else {
        line := pending[0];
        pending := pending[1..];
      }
      trace := trace + [LineRead(line)];
    }
  }

  /** The events of one exchange, given the lines the meter sends. */
  function Exchange(cfg: Config, lines: seq<seq<byte>>): (t: seq<PortEvent>)
    ensures |t| >= 2 && t[|t| - 2] == BaudSet(cfg.baudrate) && t[|t| - 1].LineRead?
  {
    if cfg.wakeupZeros > 0 then
      [BaudSet(cfg.initialBaudrate), Wrote(Zeros(cfg.wakeupZeros)), Wrote(StartSeq), Flushed,
       LineRead(LineAt(lines, 0)), BaudSet(cfg.baudrate), LineRead(LineAt(lines, 1))]
    else [BaudSet(cfg.baudrate), LineRead(LineAt(lines, 0))]
  }

  /** The bytes written during an exchange, in order. */
  function Written(t: seq<PortEvent>): seq<byte> {
    if t == [] then [] else (if t[0].Wrote? then t[0].data else []) + Written(t[1..])
  }

  /**
   * With wake-up zeros N > 0, an exchange writes exactly N zero bytes and then the request
   * message, after setting the initial speed and before the first read; without them it
   * writes nothing. Either way the response is read at the data speed.
   */
  lemma ExchangeWrites(cfg: Config, lines: seq<seq<byte>>)
    ensures cfg.wakeupZeros > 0 ==> Written(Exchange(cfg, lines)) == Zeros(cfg.wakeupZeros) + StartSeq
    ensures cfg.wakeupZeros > 0 ==> Exchange(cfg, lines)[0] == BaudSet(cfg.initialBaudrate)
    ensures cfg.wakeupZeros <= 0 ==> Written(Exchange(cfg, lines)) == []
  {
    var t := Exchange(cfg, lines);
    if cfg.wakeupZeros > 0 {
      assert Written(t[6..]) == [];
      assert Written(t[5..]) == [];
      assert Written(t[4..]) == [];
      assert Written(t[3..]) == [];
      assert Written(t[2..]) == StartSeq;
      assert Written(t[1..]) == Zeros(cfg.wakeupZeros) + StartSeq;
    } else {
      assert Written(t[1..]) == [];
    }
  }

  /**
   * The result of the exchange once the lines are read: a line that is not UTF-8 gives None
   * (UnicodeError is caught), otherwise whatever parsing the response gives.
   */
  ghost predicate FetchedAs(init: Option<seq<byte>>, response: seq<byte>, now: int,
                            r: Result<Option<Sample>, ParseError>) {
    if (init.Some? && Utf8.Decode(init.value).None?) || Utf8.Decode(response).None? then r == Ok(None)
    else ParsedAs(Findall(Utf8.Decode(response).value), now, r)
  }

  /**
   * `_fetch_untracked` with the identification line decoded only when it was read. A port
   * that does not open (SerialException) gives None and sees no event.
   */
  method FetchUntracked(cfg: Config, port: Port, now: int) returns (r: Result<Option<Sample>, ParseError>)
    modifies port
    ensures !port.opens ==> r == Ok(None) && port.trace == old(port.trace) && port.pending == old(port.pending)
    ensures port.opens ==> port.trace == old(port.trace) + Exchange(cfg, old(port.pending))
    ensures port.opens ==> port.baudrate == cfg.baudrate
    ensures port.opens && cfg.wakeupZeros > 0 ==>
      FetchedAs(Some(LineAt(old(port.pending), 0)), LineAt(old(port.pending), 1), now, r)
    ensures port.opens && cfg.wakeupZeros <= 0 ==> FetchedAs(None, LineAt(old(port.pending), 0), now, r)
  {
    if !port.opens {
      return Ok(None);
    }
    var initBytes, responseBytes := Exchanged(cfg, port);
    if initBytes.Some? && Utf8.Decode(initBytes.value).None? {
      return Ok(None);
    }
    var response := Utf8.Decode(responseBytes);
    if response.None? {
      return Ok(None);
    }
    r := Parse(response.value, now);
  }

  /** The port traffic of `_fetch_untracked`: the optional wake-up with its identification line, then the response line at the working speed. */
  method Exchanged(cfg: Config, port: Port) returns (initBytes: Option<seq<byte>>, responseBytes: seq<byte>)
    modifies port
    ensures port.trace == old(port.trace) + Exchange(cfg, old(port.pending))
    ensures port.baudrate == cfg.baudrate
    ensures initBytes == if cfg.wakeupZeros > 0 then Some(LineAt(old(port.pending), 0)) else None
    ensures responseBytes == LineAt(old(port.pending), if cfg.wakeupZeros > 0 then 1 else 0)
  {
    var lines := port.pending;
    initBytes := None;
    if cfg.wakeupZeros > 0 {
      port.SetBaudrate(cfg.initialBaudrate);
      port.Write(Zeros(cfg.wakeupZeros));
      port.Write(StartSeq);
      port.Flush();
      var line := port.ReadLine();
      initBytes := Some(line);
    }
    port.SetBaudrate(cfg.baudrate);
    responseBytes := port.ReadLine();
    assert cfg.wakeupZeros > 0 ==> responseBytes == LineAt(lines, 1) by {
      if cfg.wakeupZeros > 0 && lines != [] {
        assert LineAt(lines[1..], 0) == LineAt(lines, 1);
      }
    }
  }

  /** Why the reader as written fails: a parse error, or the identification line that was never read. */
  datatype FetchError = ParseFailed(error: ParseError) | InitBytesUnbound

  /**
   * `_fetch_untracked` exactly as written: with no wake-up zeros `init_bytes` is never
   * assigned, so decoding it raises UnboundLocalError after the response has been read.
   */
  method FetchUntrackedAsWritten(cfg: Config, port: Port, now: int) returns (r: Result<Option<Sample>, FetchError>)
    modifies port
    ensures !port.opens ==> r == Ok(None) && port.trace == old(port.trace)
    ensures port.opens ==> port.trace == old(port.trace) + Exchange(cfg, old(port.pending))
    ensures port.opens && cfg.wakeupZeros <= 0 ==> r == Err(InitBytesUnbound)
    ensures port.opens && cfg.wakeupZeros > 0 ==>
      exists r' :: FetchedAs(Some(LineAt(old(port.pending), 0)), LineAt(old(port.pending), 1), now, r')
        && r == (if r'.Err? then Err(ParseFailed(r'.error)) else Ok(r'.value))
  {
    if !port.opens {
      return Ok(None);
    }
    if cfg.wakeupZeros > 0 {
      var r' := FetchUntracked(cfg, port, now);
      r := if r'.Err? then Err(ParseFailed(r'.error)) else Ok(r'.value);
    } else {
      port.SetBaudrate(cfg.baudrate);
      var _ := port.ReadLine();
      r := Err(InitBytesUnbound);
    }
  }

  /** With the wake-up switched off, the reader as written always fails once the port opens. */
  method ZeroWakeupRaises() returns (r: Result<Option<Sample>, FetchError>)
    ensures r == Err(InitBytesUnbound)
  {
    var port := new Port(true, DefaultInitialBaudrate, [Utf8.Encode(ExampleResponse)]);
    r := FetchUntrackedAsWritten(Config(0, DefaultInitialBaudrate, DefaultBaudrate), port, 0);
  }

  /** With the wake-up switched off, the corrected reader reads and parses the single response line. */
  method ZeroWakeupReads() returns (r: Result<Option<Sample>, ParseError>)
    ensures r == Ok(Some(Sample(0, "99999999",
      [ChannelValue("6.8", Float(6047.0), Some("kWh")), ChannelValue("6.26", Float(428.35), Some("m3"))])))
  {
    var port := new Port(true, DefaultInitialBaudrate, [Utf8.Encode(ExampleResponse)]);
    Utf8.DecodeEncode(ExampleResponse);
    ExampleParse();
    r := FetchUntracked(Config(0, DefaultInitialBaudrate, DefaultBaudrate), port, 0);
  }

  /** `_discover`: a Device for the fetched sample, or None; a parse error propagates. */
  function Discover(fetched: Result<Option<Sample>, ParseError>, serialUrl: string): (r: Result<Option<Device>, ParseError>)
    ensures r.Err? <==> fetched.Err?
    ensures r.Ok? ==> (r.value.Some? <==> fetched.value.Some?)
    ensures r.Ok? && r.value.Some? ==>
      var s := fetched.value.value;
      r.value.value == Device(s.meterId, serialUrl, Protocol, s.channels)
  {
    match fetched
    case Err(e) => Err(e)
    case Ok(None) => Ok(None)
    case Ok(Some(s)) => Ok(Some(Device(s.meterId, serialUrl, Protocol, s.channels)))
  }
}
