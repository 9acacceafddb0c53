/**
 * The serial base reader: the parity setting derived from its configuration string, the
 * port object created lazily once, and device detection over a list of ports. The
 * ports the system lists and the protocol-specific `_discover` are parameters.
 */
module Serial {
  import opened Wrappers
  import opened Common

  datatype Parity = ParityNone | ParityEven | ParityOdd

  /** The parity a configuration string asks for: a case-sensitive substring test, EVEN first. */
  function ParityOf(s: string): (p: Parity)
    ensures p == ParityEven <==> IsSubstring("EVEN", s)
    ensures p == ParityOdd <==> !IsSubstring("EVEN", s) && IsSubstring("ODD", s)
    ensures p == ParityNone <==> !IsSubstring("EVEN", s) && !IsSubstring("ODD", s)
  {
    if IsSubstring("EVEN", s) then ParityEven
    else if IsSubstring("ODD", s) then ParityOdd
    else ParityNone
  }

  /** The default "None", lower-case names and a string naming both parities. */
  lemma ParityExamples()
    ensures ParityOf("None") == ParityNone
    ensures ParityOf("even") == ParityNone
    ensures ParityOf("EVEN") == ParityEven
    ensures ParityOf("ODD") == ParityOdd
    ensures ParityOf("ODD_EVEN") == ParityEven
  {
    assert IsPrefix("EVEN", "EVEN");
    assert IsPrefix("ODD", "ODD");
    assert IsPrefix("EVEN", "ODD_EVEN"[4..]);
    assert IsSubstring("EVEN", "ODD_EVEN");
    NotSubstring("EVEN", "None");
    NotSubstring("ODD", "None");
    NotSubstring("EVEN", "even");
    NotSubstring("ODD", "even");
    NotSubstring("EVEN", "ODD");
  }

  /** A pattern none of whose characters occurs in the text is not a substring of it. */
  lemma NotSubstring(a: string, b: string)
    requires a != [] && forall i :: 0 <= i < |b| ==> b[i] != a[0]
    ensures !IsSubstring(a, b)
  {
    SubstringIff(a, b);
    forall k | 0 <= k && k + |a| <= |b|
      ensures !OccursAt(a, b, k)
    {
      assert b[k..k + |a|][0] == b[k];
    }
  }

  /** Everything the port object is created from. */
  datatype PortSettings = PortSettings(url: string, baudrate: int, bytesize: int, parity: Parity,
                                       stopbits: int, timeout: int, doNotOpen: bool)

  /** A pyserial port object, known by the settings it was created with. */
  class SerialPort {
    const settings: PortSettings

    constructor (settings: PortSettings)
      ensures this.settings == settings
    {
      this.settings := settings;
    }
  }

  /** The serial part of a reader: its port settings and the port object, once created. */
  class SerialReader {
    const serialUrl: string
    const baudrate: int
    const bytesize: int
    const parity: Parity
    const stopbits: int
    const timeout: int
    var serialInstance: SerialPort?
    /** How many port objects this reader has created. */
    var initializations: nat

    constructor (meterAddress: string, baudrate: int, bytesize: int, parity: string, stopbits: int,
                 timeout: int)
      ensures serialUrl == meterAddress && this.baudrate == baudrate && this.bytesize == bytesize
      ensures this.parity == ParityOf(parity) && this.stopbits == stopbits && this.timeout == timeout
      ensures serialInstance == null && initializations == 0
    {
      serialUrl := meterAddress;
      this.baudrate := baudrate;
      this.bytesize := bytesize;
      this.stopbits := stopbits;
      this.timeout := timeout;
      this.parity := ParityOf(parity);
      serialInstance := null;
      initializations := 0;
    }

    function Settings(doNotOpen: bool): PortSettings
      reads this
    {
      PortSettings(serialUrl, baudrate, bytesize, parity, stopbits, timeout, doNotOpen)
    }

    /**
     * `initialize_serial_port`: the first call creates the port from the stored settings;
     * every later call returns that same object and creates nothing.
     */
    method InitializeSerialPort(doNotOpen: bool) returns (port: SerialPort)
      modifies this`serialInstance, this`initializations
      ensures old(serialInstance) != null ==>
        port == old(serialInstance) && initializations == old(initializations)
      ensures old(serialInstance) == null ==>
        fresh(port) && port.settings == Settings(doNotOpen) && initializations == old(initializations) + 1
      ensures serialInstance == port
    {
      if serialInstance == null {
        serialInstance := new SerialPort(Settings(doNotOpen));
        initializations := initializations + 1;
      }
      port := serialInstance;
    }
  }

  /** Two consecutive initializations hand out one object, created once. */
  method InitializeTwice(reader: SerialReader) returns (first: SerialPort, second: SerialPort)
    modifies reader
    ensures first == second
    ensures reader.initializations <= old(reader.initializations) + 1
  {
    first := reader.InitializeSerialPort(true);
    second := reader.InitializeSerialPort(true);
  }

  // ---------------------------------------------------------------------------
  // Detection

  /**
   * What `_detect_serial_devices` gives for the listed ports, where `discover(url)` is the
   * outcome of `_discover` on a new reader for `url`: Err(e) when it raised e.
   * The devices found, in port order, or the first exception, which is re-raised.
   */
  function Detected<E>(ports: seq<string>, discover: string -> Result<Option<Device>, E>)
    : Result<seq<Device>, E>
  {
    if ports == [] then Ok([])
    else
      match Detected(ports[..|ports| - 1], discover)
      case Err(e) => Err(e)
      case Ok(ds) =>
        match discover(ports[|ports| - 1])
        case Err(e) => Err(e)
        case Ok(d) => Ok(if d.Some? then ds + [d.value] else ds)
  }

  /** An exception on one port ends detection with that exception, whatever the later ports do. */
  lemma {:induction false} ErrorPropagates<E>(ports: seq<string>, i: nat,
                                             discover: string -> Result<Option<Device>, E>, e: E)
    requires i <= |ports| && Detected(ports[..i], discover) == Err(e)
    ensures Detected(ports, discover) == Err(e)
    decreases |ports| - i
  {
    if i < |ports| {
      assert ports[..i + 1][..i] == ports[..i];
      ErrorPropagates(ports, i + 1, discover, e);
    } else {
      assert ports[..i] == ports;
    }
  }

  /**
   * Detection succeeds exactly when no port raised, and then it lists every device some
   * port discovered and nothing else.
   */
  lemma {:induction false} DetectedSpec<E>(ports: seq<string>, discover: string -> Result<Option<Device>, E>)
    ensures Detected(ports, discover).Ok? <==> forall i :: 0 <= i < |ports| ==> discover(ports[i]).Ok?
    ensures Detected(ports, discover).Ok? ==>
      |Detected(ports, discover).value| <= |ports|
      && forall d :: d in Detected(ports, discover).value <==>
           exists i :: 0 <= i < |ports| && discover(ports[i]) == Ok(Some(d))
  {
    if ports != [] {
      var init := ports[..|ports| - 1];
      DetectedSpec(init, discover);
      assert forall i :: 0 <= i < |init| ==> init[i] == ports[i];
      var last := |ports| - 1;
      if Detected(ports, discover).Ok? {
        var ds := Detected(init, discover).value;
        forall d | d in Detected(ports, discover).value
          ensures exists i :: 0 <= i < |ports| && discover(ports[i]) == Ok(Some(d))
        {
          if d in ds {
            var i :| 0 <= i < |init| && discover(init[i]) == Ok(Some(d));
            assert discover(ports[i]) == Ok(Some(d));
          } else {
            assert discover(ports[last]) == Ok(Some(d));
          }
        }
        forall d | exists i :: 0 <= i < |ports| && discover(ports[i]) == Ok(Some(d))
          ensures d in Detected(ports, discover).value
        {
          var i :| 0 <= i < |ports| && discover(ports[i]) == Ok(Some(d));
          if i < last {
            assert discover(init[i]) == Ok(Some(d));
          }
        }
      } else if Detected(init, discover).Ok? {
        assert !discover(ports[last]).Ok?;
      } else {
        var i :| 0 <= i < |init| && !discover(init[i]).Ok?;
        assert !discover(ports[i]).Ok?;
      }
    }
  }

  /** `_detect_serial_devices`: try every listed port with a fresh reader, collecting what is found. */
  method DetectSerialDevices<E>(ports: seq<string>, discover: string -> Result<Option<Device>, E>)
    returns (r: Result<seq<Device>, E>)
    ensures r == Detected(ports, discover)
  {
    var devices: seq<Device> := [];
    var i := 0;
    while i < |ports|
      invariant 0 <= i <= |ports|
      invariant Detected(ports[..i], discover) == Ok(devices)
    {
      assert ports[..i + 1][..i] == ports[..i];
      var outcome := discover(ports[i]);
      if outcome.Err? {
        ErrorPropagates(ports, i + 1, discover, outcome.error);
        return Err(outcome.error);
      }
      if outcome.value.Some? {
        devices := devices + [outcome.value.value];
      }
      i := i + 1;
    }
    assert ports[..i] == ports;
    r := Ok(devices);
  }
}
