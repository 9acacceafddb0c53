/**
 * The legacy SML reader (`device_lib/meter_sml.py`): serial settings from keyword
 * arguments, the recursive walk over the decoded SML frame that identifies the meter and
 * collects its value list, and the reader that binds itself to the first device node
 * answering with a frame. The port is abstract: what reading a device node yields before
 * the timeout is a function of its path, and the SML decoder is a function parameter.
 */
module LegacySml {
  import opened Wrappers
  import opened Common
  import opened Serial
  import opened Middleware
  import opened LegacySmlScan

  // ---------------------------------------------------------------------------
  // Serial settings

  /** The keyword arguments the constructor pops; None for an absent key. */
  datatype Kwargs = Kwargs(baudrate: Option<Value>, bytesize: Option<Value>, stopbits: Option<Value>,
                           parity: Option<string>)

  datatype Settings = Settings(baudrate: int, bytesize: int, stopbits: int, parity: Parity)

  /** `int(x)` failed. */
  datatype ValueError = ValueError

  /** `int(s)` for a string: an optional minus sign and at least one ASCII digit. */
  function TextInt(s: string): Option<int> {
    if |s| > 1 && s[0] == '-' && AllDigits(s[1..]) then Some(-(DigitsValue(s[1..]) as int))
    else if s != [] && AllDigits(s) then Some(DigitsValue(s))
    else None
  }

  /** The bytes as characters of the same code; a byte of 0x80 or more is never a digit. */
  function AsciiText(b: seq<byte>): string {
    seq(|b|, i requires 0 <= i < |b| => b[i] as char)
  }

  /** Python's `int(x)`: an int as it is, a float truncated toward zero, a numeral read, as text or as bytes. */
  function PythonInt(v: Value): Result<int, ValueError> {
    match v
    case Int(i) => Ok(i)
    case Float(x) => Ok(Trunc(x))
    case Text(s) => if TextInt(s).Some? then Ok(TextInt(s).value) else Err(ValueError)
    case Binary(b) => if TextInt(AsciiText(b)).Some? then Ok(TextInt(AsciiText(b)).value) else Err(ValueError)
  }

  /** A digit string reads as its value, and with a minus sign in front as its negation. */
  lemma TextIntOfDigits(d: string)
    requires d != [] && AllDigits(d)
    ensures TextInt(d) == Some(DigitsValue(d))
    ensures TextInt("-" + d) == Some(-(DigitsValue(d) as int))
  {
    assert IsDigit(d[0]);
    assert ("-" + d)[1..] == d;
  }

  /** `int(str(i)) == i`. */
  lemma PythonIntRoundTrip(i: int)
    ensures PythonInt(Text(IntToString(i))) == Ok(i)
  {
    var n: nat := if i < 0 then -i else i;
    NatToStringRoundTrip(n);
    TextIntOfDigits(NatToString(n));
  }

  /** An empty string, a lone sign and a decimal fraction are refused; a float is truncated toward zero. */
  lemma PythonIntExamples()
    ensures PythonInt(Text("")).Err? && PythonInt(Text("-")).Err? && PythonInt(Text("96.0")).Err?
    ensures PythonInt(Float(-2.5)) == Ok(-2) && PythonInt(Float(9600.9)) == Ok(9600)
    ensures PythonInt(Binary([0x39, 0x36, 0x30, 0x30])) == Ok(9600) && PythonInt(Binary([0xB9])).Err?
  {
    assert AsciiText([0x39, 0x36, 0x30, 0x30]) == "9600";
    assert "9600"[..3] == "960" && "960"[..2] == "96" && "96"[..1] == "9" && "9"[..0] == "";
    assert DigitsValue("9600") == 9600;
    TextIntOfDigits("9600");
    var high: seq<byte> := [0xB9];
    assert AsciiText(high)[0] == high[0] as char && high[0] as int == 0xB9;
    assert !IsDigit(AsciiText(high)[0]);
    assert !IsDigit("96.0"[2]);
    assert !IsDigit("-"[0]);
  }

  /** `int(kwargs.pop(key, default))`. */
  function IntOr(v: Option<Value>, default: int): Result<int, ValueError> {
    if v.None? then Ok(default) else PythonInt(v.value)
  }

  /** The parity: NONE unless a `parity` argument is given whose stripped text names EVEN or, failing that, ODD. */
  function LegacyParity(p: Option<string>): Parity {
    if p.None? then ParityNone else ParityOf(Strip(p.value))
  }

  /** The settings the constructor reads, or the ValueError that makes it give up. */
  function Configure(k: Kwargs): Result<Settings, ValueError> {
    var baudrate := IntOr(k.baudrate, 9600);
    var bytesize := IntOr(k.bytesize, 8);
    var stopbits := IntOr(k.stopbits, 1);
    if baudrate.Err? || bytesize.Err? || stopbits.Err? then Err(ValueError)
    else Ok(Settings(baudrate.value, bytesize.value, stopbits.value, LegacyParity(k.parity)))
  }

  /**
   * Without arguments the port runs at 9600 baud, 8 data bits, 1 stop bit and no parity;
   * the constructor gives up exactly when one of the three numbers cannot be read, and
   * otherwise keeps every number given.
   */
  lemma ConfigureSpec(k: Kwargs)
    ensures Configure(Kwargs(None, None, None, None)) == Ok(Settings(9600, 8, 1, ParityNone))
    ensures Configure(k).Err? <==>
      || (k.baudrate.Some? && PythonInt(k.baudrate.value).Err?)
      || (k.bytesize.Some? && PythonInt(k.bytesize.value).Err?)
      || (k.stopbits.Some? && PythonInt(k.stopbits.value).Err?)
    ensures Configure(k).Ok? && k.baudrate.Some? ==> Ok(Configure(k).value.baudrate) == PythonInt(k.baudrate.value)
    ensures Configure(k).Ok? && k.bytesize.Some? ==> Ok(Configure(k).value.bytesize) == PythonInt(k.bytesize.value)
    ensures Configure(k).Ok? && k.stopbits.Some? ==> Ok(Configure(k).value.stopbits) == PythonInt(k.stopbits.value)
  {
  }

  /** The parity name is read without regard to letter case, and EVEN wins over ODD. */
  lemma LegacyParitySpec(s: string)
    ensures LegacyParity(Some(LowerAll(s))) == LegacyParity(Some(s))
    ensures LegacyParity(Some(s)) == ParityEven <==> IsSubstring("EVEN", Strip(s))
    ensures LegacyParity(Some(s)) == ParityOdd <==> !IsSubstring("EVEN", Strip(s)) && IsSubstring("ODD", Strip(s))
  {
    StripIgnoresCase(s);
  }

  // ---------------------------------------------------------------------------
  // Walking the decoded frame

  /** The decoder's output: lists, message dicts (with the value list of their body, if they have a body) and anything else. */
  datatype SmlNode = SList(items: seq<SmlNode>) | SDict(body: Option<seq<Entry>>) | SOther

  /** The sample being filled: the meter id found, if any, and the collected value list. */
  datatype Parsed = Parsed(meterId: Option<Value>, channels: seq<Entry>)

  /** What the walk looks for: the reader's meter id, and `str` of values other than strings and ints. */
  datatype MeterQuery = MeterQuery(meterId: string, render: Value -> string)

  /** Python truthiness of the meter id. */
  predicate Truthy(v: Option<Value>) {
    match v
    case None => false
    case Some(Text(s)) => s != []
    case Some(Binary(b)) => b != []
    case Some(Int(i)) => i != 0
    case Some(Float(x)) => x != 0.0
  }

  /** `str(variable.get('value', ''))`. */
  function StrOf(v: Option<Value>, render: Value -> string): string {
    match v
    case None => ""
    case Some(Text(s)) => s
    case Some(Int(i)) => IntToString(i)
    case Some(x) => render(x)
  }

  /** A variable without a `unit` key whose stripped value contains the stripped meter id. */
  predicate IsIdVariable(e: Entry, t: MeterQuery) {
    !HasUnitKey(e) && IsSubstring(Strip(t.meterId), Strip(StrOf(e.value, t.render)))
  }

  /** The first id variable from position `i` on. */
  function FirstId(body: seq<Entry>, t: MeterQuery, i: nat): (r: Option<nat>)
    requires i <= |body|
    ensures r.Some? ==> i <= r.value < |body| && IsIdVariable(body[r.value], t)
    ensures r.Some? ==> forall j :: i <= j < r.value ==> !IsIdVariable(body[j], t)
    ensures r.None? ==> forall j :: i <= j < |body| ==> !IsIdVariable(body[j], t)
    decreases |body| - i
  {
    if i == |body| then None
    else if IsIdVariable(body[i], t) then Some(i)
    else FirstId(body, t, i + 1)
  }

  /** A value list whose every variable has a `unit` key, even one holding None, names no meter. */
  lemma KeyedUnitsNameNoMeter(st: Parsed, body: seq<Entry>, t: MeterQuery)
    requires forall j :: 0 <= j < |body| ==> HasUnitKey(body[j])
    ensures FirstId(body, t, 0).None?
    ensures ParseMessage(st, body, t).meterId == st.meterId
  {
  }

  /** A message: its first id variable, if any, sets the meter id; once the id is truthy the whole value list is collected. */
  function ParseMessage(st: Parsed, body: seq<Entry>, t: MeterQuery): Parsed {
    var id := FirstId(body, t, 0);
    var m := if id.Some? then body[id.value].value else st.meterId;
    Parsed(m, if Truthy(m) then st.channels + body else st.channels)
  }

  /** `__parse` on one node: lists element by element, message dicts as above, anything else ignored. */
  function ParseNode(st: Parsed, n: SmlNode, t: MeterQuery): Parsed
    decreases n
  {
    match n
    case SList(items) => ParseItems(st, items, t)
    case SDict(body) => if body.Some? then ParseMessage(st, body.value, t) else st
    case SOther => st
  }

  function ParseItems(st: Parsed, items: seq<SmlNode>, t: MeterQuery): Parsed
    decreases items
  {
    if items == [] then st
    else ParseNode(ParseItems(st, items[..|items| - 1], t), items[|items| - 1], t)
  }

  /** Whether some message in the node holds an id variable. */
  predicate Identifies(n: SmlNode, t: MeterQuery)
    decreases n
  {
    match n
    case SList(items) => ItemsIdentify(items, t)
    case SDict(body) => body.Some? && FirstId(body.value, t, 0).Some?
    case SOther => false
  }

  predicate ItemsIdentify(items: seq<SmlNode>, t: MeterQuery)
    decreases items
  {
    items != [] && (ItemsIdentify(items[..|items| - 1], t) || Identifies(items[|items| - 1], t))
  }

  /**
   * A message sets the meter id to its first id variable's value and keeps the old id when
   * it has none; it adds its whole value list or nothing, and adds it only under a truthy id.
   */
  lemma ParseMessageSpec(st: Parsed, body: seq<Entry>, t: MeterQuery)
    ensures var r := ParseMessage(st, body, t);
      && (forall i :: 0 <= i < |body| && IsIdVariable(body[i], t) && (forall j :: 0 <= j < i ==> !IsIdVariable(body[j], t))
            ==> r.meterId == body[i].value)
      && ((forall i :: 0 <= i < |body| ==> !IsIdVariable(body[i], t)) ==> r.meterId == st.meterId)
      && (r.channels == st.channels || r.channels == st.channels + body)
      && (r.channels != st.channels ==> Truthy(r.meterId))
      && (Truthy(r.meterId) ==> r.channels == st.channels + body)
  {
  }

  /** The walk only appends to the value list. */
  lemma {:induction false} ParseNodeGrows(st: Parsed, n: SmlNode, t: MeterQuery)
    ensures |st.channels| <= |ParseNode(st, n, t).channels|
    ensures ParseNode(st, n, t).channels[..|st.channels|] == st.channels
    decreases n
  {
    match n
    case SList(items) => ParseItemsGrows(st, items, t);
    case SDict(body) =>
      if body.Some? {
        assert (st.channels + body.value)[..|st.channels|] == st.channels;
      }
    case SOther =>
  }

  lemma {:induction false} ParseItemsGrows(st: Parsed, items: seq<SmlNode>, t: MeterQuery)
    ensures |st.channels| <= |ParseItems(st, items, t).channels|
    ensures ParseItems(st, items, t).channels[..|st.channels|] == st.channels
    decreases items
  {
    if items != [] {
      var mid := ParseItems(st, items[..|items| - 1], t);
      ParseItemsGrows(st, items[..|items| - 1], t);
      ParseNodeGrows(mid, items[|items| - 1], t);
      var r := ParseNode(mid, items[|items| - 1], t);
      assert r.channels[..|st.channels|] == r.channels[..|mid.channels|][..|st.channels|];
    }
  }

  /** Before the meter is identified nothing is collected: a walk over messages none of which names the meter changes nothing. */
  lemma {:induction false} UnidentifiedUnchanged(st: Parsed, n: SmlNode, t: MeterQuery)
    requires !Truthy(st.meterId) && !Identifies(n, t)
    ensures ParseNode(st, n, t) == st
    decreases n
  {
    match n
    case SList(items) => UnidentifiedItemsUnchanged(st, items, t);
    case SDict(body) =>
    case SOther =>
  }

  lemma {:induction false} UnidentifiedItemsUnchanged(st: Parsed, items: seq<SmlNode>, t: MeterQuery)
    requires !Truthy(st.meterId) && !ItemsIdentify(items, t)
    ensures ParseItems(st, items, t) == st
    decreases items
  {
    if items != [] {
      UnidentifiedItemsUnchanged(st, items[..|items| - 1], t);
      UnidentifiedUnchanged(st, items[|items| - 1], t);
    }
  }

  /** A frame holding one message whose first id variable has a truthy value yields that id and the message's whole value list, id variable included. */
  lemma SingleMessage(body: seq<Entry>, t: MeterQuery, i: nat)
    requires i < |body| && IsIdVariable(body[i], t) && Truthy(body[i].value)
    requires forall j :: 0 <= j < i ==> !IsIdVariable(body[j], t)
    ensures ParseNode(Parsed(None, []), SList([SDict(Some(body))]), t) == Parsed(body[i].value, body)
  {
    var items := [SDict(Some(body))];
    var empty := Parsed(None, []);
    assert items[..0] == [];
    assert ParseItems(empty, items[..0], t) == empty;
    assert FirstId(body, t, 0) == Some(i);
    assert [] + body == body;
    assert ParseMessage(empty, body, t) == Parsed(body[i].value, body);
    assert ParseItems(empty, items, t) == ParseNode(empty, items[0], t);
  }

  /** The sample `__parse` fills in place. */
  class ParsedSample {
    var meterId: Option<Value>
    var channels: seq<Entry>

    constructor ()
      ensures meterId == None && channels == []
    {
      meterId := None;
      channels := [];
    }

    function State(): Parsed
      reads this
    {
      Parsed(meterId, channels)
    }
  }

  // ---------------------------------------------------------------------------
  // The reader

  /** What reading a device node yields until the timeout: an OSError, or the bytes delivered. */
  datatype PortAnswer = PortOsError | PortBytes(stream: seq<byte>)

  /** `poll`: no sample, True for a reader that has just bound itself, or a sample. */
  datatype PollResult = NoSample | Bound | GotSample(sample: ParsedSample)

  class Reader {
    const meterId: string
    const settings: Settings
    /** `str` of float and bytes values. */
    const render: Value -> string
    /** What reading each device node yields. */
    const port: string -> PortAnswer
    /** `SmlBase.parse_frame`. */
    const parseFrame: seq<byte> -> seq<SmlNode>
    var ttyPath: Option<string>

    constructor (meterId: string, settings: Settings, render: Value -> string, port: string -> PortAnswer,
                 parseFrame: seq<byte> -> seq<SmlNode>)
      ensures this.meterId == meterId && this.settings == settings && this.render == render
      ensures this.port == port && this.parseFrame == parseFrame && ttyPath == None
    {
      this.meterId := meterId;
      this.settings := settings;
      this.render := render;
      this.port := port;
      this.parseFrame := parseFrame;
      ttyPath := None;
    }

    function Query(): MeterQuery {
      MeterQuery(meterId, render)
    }

    /**
     * The sample a poll of the device node at `path` yields: the frame cut from its stream is
     * decoded, the second element of the decoder's output is walked, and the result counts
     * when a meter id was set.
     */
    function PolledAt(path: string): Option<Parsed> {
      match port(path)
      case PortOsError => None
      case PortBytes(s) =>
        match ReadFrame(s)
        case None => None
        case Some(f) =>
          var frame := parseFrame(f);
          if |frame| > 1 then
            var p := ParseNode(Parsed(None, []), frame[1], Query());
            if p.meterId.Some? then Some(p) else None
          else None
    }

    /** A message: look for the first id variable, then collect the value list under a truthy id. */
    method ParseMessageInto(body: seq<Entry>, parsed: ParsedSample)
      modifies parsed
      ensures parsed.State() == ParseMessage(old(parsed.State()), body, Query())
    {
      var i := 0;
      while i < |body|
        invariant i <= |body| && FirstId(body, Query(), 0) == FirstId(body, Query(), i)
        invariant parsed.State() == old(parsed.State())
      {
        if !HasUnitKey(body[i]) && IsSubstring(Strip(meterId), Strip(StrOf(body[i].value, render))) {
          parsed.meterId := body[i].value;
          break;
        }
        i := i + 1;
      }
      if Truthy(parsed.meterId) {
        parsed.channels := parsed.channels + body;
      }
    }

    /** `__parse(sml_frame, parsed)`. */
    method ParseInto(n: SmlNode, parsed: ParsedSample)
      modifies parsed
      ensures parsed.State() == ParseNode(old(parsed.State()), n, Query())
      decreases n
    {
      match n
      case SList(items) =>
        var i := 0;
        while i < |items|
          invariant i <= |items|
          invariant parsed.State() == ParseItems(old(parsed.State()), items[..i], Query())
        {
          assert items[..i + 1][..i] == items[..i];
          ParseInto(items[i], parsed);
          i := i + 1;
        }
        assert items[..i] == items;
      case SDict(body) =>
        if body.Some? {
          ParseMessageInto(body.value, parsed);
        }
      case SOther =>
    }

    /** `poll` once the reader is bound: read a frame from the node at `path` and walk it. */
    method PollAt(path: string) returns (r: Option<ParsedSample>)
      ensures r.Some? <==> PolledAt(path).Some?
      ensures r.Some? ==> fresh(r.value) && r.value.State() == PolledAt(path).value
    {
      var answer := port(path);
      if answer.PortOsError? {
        return None;
      }
      var f := ReadFrameFrom(answer.stream);
      if f.None? {
        return None;
      }
      var frame := parseFrame(f.value);
      if |frame| > 1 {
        var sample := new ParsedSample();
        ParseInto(frame[1], sample);
        if sample.meterId.Some? {
          return Some(sample);
        }
      }
      r := None;
    }

    /** The first device node from position `i` on that yields a sample. */
    function FirstBound(ttys: seq<string>, i: nat): (r: Option<nat>)
      requires i <= |ttys|
      ensures r.Some? ==> i <= r.value < |ttys| && PolledAt(ttys[r.value]).Some?
      ensures r.Some? ==> forall j :: i <= j < r.value ==> PolledAt(ttys[j]).None?
      ensures r.None? ==> forall j :: i <= j < |ttys| ==> PolledAt(ttys[j]).None?
      decreases |ttys| - i
    {
      if i == |ttys| then None
      else if PolledAt(ttys[i]).Some? then Some(i)
      else FirstBound(ttys, i + 1)
    }

    /**
     * `__probe` over the device nodes matching the tty pattern: binds the reader to the
     * first node that yields a sample; when none does, the reader is left unbound.
     */
    method Probe(ttys: seq<string>) returns (bound: bool)
      modifies this`ttyPath
      ensures bound <==> FirstBound(ttys, 0).Some?
      ensures bound ==> ttyPath == Some(ttys[FirstBound(ttys, 0).value])
      ensures !bound ==> ttyPath == (if ttys == [] then old(ttyPath) else None)
    {
      if ttys == [] {
        return false;
      }
      var i := 0;
      while i < |ttys|
        invariant i <= |ttys| && FirstBound(ttys, 0) == FirstBound(ttys, i)
        invariant ttyPath == (if i == 0 then old(ttyPath) else None)
      {
        ttyPath := Some(ttys[i]);
        var sample := PollAt(ttys[i]);
        if sample.Some? {
          return true;
        }
        ttyPath := None;
        i := i + 1;
      }
      bound := false;
    }

    /**
     * `poll`: an unbound reader probes and answers only whether it bound itself; a bound
     * reader answers with the sample its node yields, if any.
     */
    method Poll(ttys: seq<string>) returns (r: PollResult)
      modifies this`ttyPath
      ensures old(ttyPath).Some? ==> ttyPath == old(ttyPath) && !r.Bound?
      ensures old(ttyPath).Some? ==> (r.GotSample? <==> PolledAt(old(ttyPath).value).Some?)
      ensures old(ttyPath).Some? && r.GotSample? ==> fresh(r.sample) && r.sample.State() == PolledAt(old(ttyPath).value).value
      ensures old(ttyPath).None? ==> !r.GotSample? && (r.Bound? <==> FirstBound(ttys, 0).Some?)
      ensures old(ttyPath).None? && r.Bound? ==> ttyPath == Some(ttys[FirstBound(ttys, 0).value])
      ensures old(ttyPath).None? && !r.Bound? ==> ttyPath == None
    {
      if ttyPath.None? {
        var bound := Probe(ttys);
        r := if bound then Bound else NoSample;
        return;
      }
      var sample := PollAt(ttyPath.value);
      r := if sample.Some? then GotSample(sample.value) else NoSample;
    }
  }

  /** The constructor: a reader with the settings read from the arguments, or the ValueError that stops it. */
  method NewReader(meterId: string, k: Kwargs, render: Value -> string, port: string -> PortAnswer,
                   parseFrame: seq<byte> -> seq<SmlNode>) returns (r: Result<Reader, ValueError>)
    ensures r.Err? <==> Configure(k).Err?
    ensures r.Ok? ==> fresh(r.value) && r.value.settings == Configure(k).value && r.value.ttyPath == None
    ensures r.Ok? ==> r.value.meterId == meterId && r.value.port == port && r.value.parseFrame == parseFrame
  {
    var settings := Configure(k);
    if settings.Err? {
      return Err(ValueError);
    }
    var reader := new Reader(meterId, settings.value, render, port, parseFrame);
    r := Ok(reader);
  }
}
