/**
 * The configuration mapping of the legacy program (`map_configuration` in
 * `pymeterreader/meter_reader.py`): for each configured device, the variables of its
 * first sample are matched against the configured channels, and a node over the matched
 * channels is registered when its first push succeeds. The configuration is already
 * loaded; what each device's reader polls is part of its configuration here, and
 * `humanfriendly.parse_timespan` is a parameter.
 */
module LegacyConfig {
  import opened Wrappers
  import opened Common
  import opened Scheduling
  import opened LegacyGateway
  import opened LegacyNode
  import MeterReaderNode

  /** An interval as written in the configuration: an int, a float or a text such as `5m`. */
  datatype TimeSpec = IntSpec(i: int) | FloatSpec(x: real) | TextSpec(s: string)

  /** `humanfriendly_time_parser`: a text goes to the timespan parser, a number is truncated by `int()`. */
  function HumanfriendlyTimeParser(t: TimeSpec, parseTimespan: string -> nat): (r: int)
    ensures t.IntSpec? ==> r == t.i
    ensures t.FloatSpec? && t.x >= 0.0 ==> 0 <= r && r as real <= t.x < r as real + 1.0
    ensures t.FloatSpec? && t.x < 0.0 ==> r <= 0 && r as real - 1.0 < t.x <= r as real
    ensures t.TextSpec? ==> r >= 0 && r == parseTimespan(t.s)
  {
    match t
    case IntSpec(i) => i
    case FloatSpec(x) => Middleware.Trunc(x)
    case TextSpec(s) => parseTimespan(s)
  }

  /** A number of whole seconds written as a float reads back as that many seconds. */
  lemma TimeParserWholeFloat(n: int, parseTimespan: string -> nat)
    ensures HumanfriendlyTimeParser(FloatSpec(n as real), parseTimespan) == n
  {
    Middleware.TruncWhole(n);
  }

  /** A configured channel: its name (after `str()`), uuid, optional interval and optional factor. */
  datatype ConfigChannel = ConfigChannel(name: string, uuid: string, interval: Option<TimeSpec>, factor: Option<real>)

  /** The configured interval, if any, is not a negative number. */
  predicate NonNegativeInterval(c: ConfigChannel) {
    match c.interval
    case Some(IntSpec(i)) => i >= 0
    case Some(FloatSpec(x)) => x >= 0.0
    case _ => true
  }

  /** No configured interval is a negative number. */
  predicate NonNegativeIntervals(chans: seq<ConfigChannel>) {
    forall j :: 0 <= j < |chans| ==> NonNegativeInterval(chans[j])
  }

  /** The entry `available_channels` records for a channel: its uuid, interval (default `1h`) and factor (default 1). */
  function Configured(c: ConfigChannel, parseTimespan: string -> nat): MeterReaderNode.ChannelConfig
    requires NonNegativeInterval(c)
  {
    var interval := HumanfriendlyTimeParser(c.interval.GetOr(TextSpec("1h")), parseTimespan);
    MeterReaderNode.ChannelConfig(c.uuid, interval, c.factor.GetOr(1.0))
  }

  /** `strip(str(channel_name)) in strip(str(obj_name))`. */
  predicate Matches(c: ConfigChannel, objName: string) {
    IsSubstring(Strip(c.name), Strip(objName))
  }

  /** The channels matched for one variable, recorded under its raw object name, later channels overwriting earlier ones. */
  function MatchVariable(acc: map<string, MeterReaderNode.ChannelConfig>, objName: string, chans: seq<ConfigChannel>,
                         parseTimespan: string -> nat): map<string, MeterReaderNode.ChannelConfig>
    requires NonNegativeIntervals(chans)
  {
    if chans == [] then acc
    else
      var c := chans[|chans| - 1];
      var acc' := MatchVariable(acc, objName, chans[..|chans| - 1], parseTimespan);
      if Matches(c, objName) then acc'[objName := Configured(c, parseTimespan)] else acc'
  }

  /** `available_channels` after all the variables of the sample. */
  function Matched(es: seq<Entry>, chans: seq<ConfigChannel>, parseTimespan: string -> nat)
    : map<string, MeterReaderNode.ChannelConfig>
    requires NonNegativeIntervals(chans)
  {
    if es == [] then map[]
    else MatchVariable(Matched(es[..|es| - 1], chans, parseTimespan), Obis(es[|es| - 1]), chans, parseTimespan)
  }

  /** The index of the last configured channel a name matches, if any. */
  function LastMatch(objName: string, chans: seq<ConfigChannel>): (r: Option<nat>)
    ensures r.Some? ==> r.value < |chans| && Matches(chans[r.value], objName)
    ensures r.Some? ==> forall j :: r.value < j < |chans| ==> !Matches(chans[j], objName)
    ensures r.None? ==> forall j :: 0 <= j < |chans| ==> !Matches(chans[j], objName)
  {
    if chans == [] then None
    else if Matches(chans[|chans| - 1], objName) then Some(|chans| - 1)
    else LastMatch(objName, chans[..|chans| - 1])
  }

  /** One variable records, under its name, the last configured channel it matches, and changes nothing else. */
  lemma {:induction false} MatchVariableLast(acc: map<string, MeterReaderNode.ChannelConfig>, objName: string,
                                             chans: seq<ConfigChannel>, parseTimespan: string -> nat)
    requires NonNegativeIntervals(chans)
    ensures MatchVariable(acc, objName, chans, parseTimespan)
         == if LastMatch(objName, chans).Some?
            then acc[objName := Configured(chans[LastMatch(objName, chans).value], parseTimespan)]
            else acc
    decreases |chans|, 1
  {
    if chans != [] {
      if Matches(chans[|chans| - 1], objName) {
        MatchVariableLastHit(acc, objName, chans, parseTimespan);
      } else {
        MatchVariableLastMiss(acc, objName, chans, parseTimespan);
      }
    }
  }

  /** When the last configured channel matches, it is the one recorded. */
  lemma {:induction false} MatchVariableLastHit(acc: map<string, MeterReaderNode.ChannelConfig>, objName: string,
                                                chans: seq<ConfigChannel>, parseTimespan: string -> nat)
    requires chans != [] && NonNegativeIntervals(chans) && Matches(chans[|chans| - 1], objName)
    ensures MatchVariable(acc, objName, chans, parseTimespan) == acc[objName := Configured(chans[|chans| - 1], parseTimespan)]
    ensures LastMatch(objName, chans) == Some(|chans| - 1)
    decreases |chans|, 0
  {
    var init := chans[..|chans| - 1];
    NonNegativeInit(chans);
    MatchVariableLast(acc, objName, init, parseTimespan);
    var x := Configured(chans[|chans| - 1], parseTimespan);
    assert MatchVariable(acc, objName, init, parseTimespan)[objName := x] == acc[objName := x];
  }

  /** When the last configured channel does not match, the shorter list decides. */
  lemma {:induction false} MatchVariableLastMiss(acc: map<string, MeterReaderNode.ChannelConfig>, objName: string,
                                                 chans: seq<ConfigChannel>, parseTimespan: string -> nat)
    requires chans != [] && NonNegativeIntervals(chans) && !Matches(chans[|chans| - 1], objName)
    ensures MatchVariable(acc, objName, chans, parseTimespan)
         == if LastMatch(objName, chans).Some?
            then acc[objName := Configured(chans[LastMatch(objName, chans).value], parseTimespan)]
            else acc
    decreases |chans|, 0
  {
    var init := chans[..|chans| - 1];
    NonNegativeInit(chans);
    MatchVariableLast(acc, objName, init, parseTimespan);
    assert LastMatch(objName, chans) == LastMatch(objName, init);
    if LastMatch(objName, init).Some? {
      var j := LastMatch(objName, init).value;
      assert chans[j] == init[j];
    }
  }

  lemma NonNegativeInit(chans: seq<ConfigChannel>)
    requires chans != [] && NonNegativeIntervals(chans)
    ensures NonNegativeIntervals(chans[..|chans| - 1])
  {
    var init := chans[..|chans| - 1];
    assert forall j :: 0 <= j < |init| ==> init[j] == chans[j];
  }

  /**
   * A name is recorded exactly when some variable carries it and some configured channel
   * matches it, and it is recorded with the last configured channel that matches it.
   */
  lemma {:induction false} MatchedSpec(es: seq<Entry>, chans: seq<ConfigChannel>, parseTimespan: string -> nat, k: string)
    requires NonNegativeIntervals(chans)
    ensures k in Matched(es, chans, parseTimespan)
        <==> (exists i :: 0 <= i < |es| && Obis(es[i]) == k) && LastMatch(k, chans).Some?
    ensures k in Matched(es, chans, parseTimespan) ==>
      Matched(es, chans, parseTimespan)[k] == Configured(chans[LastMatch(k, chans).value], parseTimespan)
  {
    if es != [] {
      var init := es[..|es| - 1];
      MatchedSpec(init, chans, parseTimespan, k);
      MatchVariableLast(Matched(init, chans, parseTimespan), Obis(es[|es| - 1]), chans, parseTimespan);
      assert forall i :: 0 <= i < |init| ==> init[i] == es[i];
      if (exists i :: 0 <= i < |es| && Obis(es[i]) == k) && Obis(es[|es| - 1]) != k {
        var i :| 0 <= i < |es| && Obis(es[i]) == k;
        assert init[i] == es[i];
      }
    }
  }

  /** A dict's keys in insertion order: distinct, and exactly the keys. */
  ghost predicate Ordered(available: map<string, MeterReaderNode.ChannelConfig>, order: seq<string>) {
    && (forall a, b :: 0 <= a < b < |order| ==> order[a] != order[b])
    && available.Keys == set a | 0 <= a < |order| :: order[a]
  }

  /** `available_channels[obj_name] = ...`: a new key goes to the end of the order, an old one keeps its place. */
  method Record(available: map<string, MeterReaderNode.ChannelConfig>, order: seq<string>, name: string,
                c: MeterReaderNode.ChannelConfig)
    returns (available': map<string, MeterReaderNode.ChannelConfig>, order': seq<string>)
    requires Ordered(available, order)
    ensures available' == available[name := c] && Ordered(available', order')
    ensures |order| <= |order'| && order'[..|order|] == order
  {
    available' := available[name := c];
    order' := order;
    if name !in available {
      order' := order + [name];
      assert forall a :: 0 <= a < |order| ==> order'[a] == order[a];
      assert order'[|order|] == name;
      assert (set a | 0 <= a < |order'| :: order'[a]) == (set a | 0 <= a < |order| :: order[a]) + {name};
    }
  }

  /** The inner loop of the matching, over the configured channels, for one variable. */
  method MatchOne(available: map<string, MeterReaderNode.ChannelConfig>, order: seq<string>, objName: string,
                  chans: seq<ConfigChannel>, parseTimespan: string -> nat)
    returns (available': map<string, MeterReaderNode.ChannelConfig>, order': seq<string>)
    requires NonNegativeIntervals(chans) && Ordered(available, order)
    ensures available' == MatchVariable(available, objName, chans, parseTimespan) && Ordered(available', order')
  {
    available', order' := available, order;
    var j := 0;
    while j < |chans|
      invariant 0 <= j <= |chans|
      invariant available' == MatchVariable(available, objName, chans[..j], parseTimespan)
      invariant Ordered(available', order')
    {
      assert chans[..j + 1][..j] == chans[..j];
      var c := chans[j];
      if IsSubstring(Strip(c.name), Strip(objName)) {
        available', order' := Record(available', order', objName, Configured(c, parseTimespan));
      }
      j := j + 1;
    }
    assert chans[..j] == chans;
  }

  /**
   * The channel matching of `map_configuration`: for each variable, for each configured
   * channel, a match records the channel under the variable's raw object name. The dict's
   * insertion order is kept alongside it.
   */
  method MatchChannels(es: seq<Entry>, chans: seq<ConfigChannel>, parseTimespan: string -> nat)
    returns (available: map<string, MeterReaderNode.ChannelConfig>, order: seq<string>)
    requires NonNegativeIntervals(chans)
    ensures available == Matched(es, chans, parseTimespan)
    ensures (forall i, j :: 0 <= i < j < |order| ==> order[i] != order[j])
    ensures available.Keys == set i | 0 <= i < |order| :: order[i]
  {
    available, order := map[], [];
    var i := 0;
    while i < |es|
      invariant 0 <= i <= |es|
      invariant available == Matched(es[..i], chans, parseTimespan)
      invariant Ordered(available, order)
    {
      assert es[..i + 1][..i] == es[..i];
      available, order := MatchOne(available, order, Obis(es[i]), chans, parseTimespan);
      i := i + 1;
    }
    assert es[..i] == es;
  }

  /** `get` raises for none of the matched channels. */
  predicate MatchedAnswered(m: map<string, MeterReaderNode.ChannelConfig>, answers: string -> GetAnswer) {
    forall k :: k in m ==> LatestEntry(answers(m[k].uuid)).Ok?
  }

  /** The table a node over the matched channels starts from: each channel seeded from its `get`. */
  function SeededTable(m: map<string, MeterReaderNode.ChannelConfig>, answers: string -> GetAnswer)
    : map<string, ChannelInfo>
    requires MatchedAnswered(m, answers)
  {
    map k | k in m :: SeedFrom(m[k], answers)
  }

  /**
   * What registering one polled device does, given the uploads sent so far: `Ok(true)` when a
   * node is kept, `Ok(false)` when there is none (no channel matches, or the first push does
   * not post every channel), or the exception; and the uploads afterwards.
   */
  function Registration(sample: LegacySample, chans: seq<ConfigChannel>, g: Gateway, parseTimespan: string -> nat,
                        now: real, uploads: seq<Middleware.Upload>)
    : (Result<bool, ConfigError>, seq<Middleware.Upload>)
    requires NonNegativeIntervals(chans)
  {
    var m := Matched(sample.entries, chans, parseTimespan);
    if m == map[] then (Ok(false), uploads)
    else if !MatchedAnswered(m, g.answers) then (Err(MissingRows), uploads)
    else
      var o := PushAll(g, PushState(SeededTable(m, g.answers), 0, uploads), sample.entries, sample.time, now);
      if o.raised then (Err(UncastableValue), o.state.uploads)
      else (Ok(o.state.posted == |m|), o.state.uploads)
  }

  /** Distinct elements: as many as the sequence is long. */
  lemma {:induction false} DistinctCard(xs: seq<string>)
    requires forall i, j :: 0 <= i < j < |xs| ==> xs[i] != xs[j]
    ensures |set i | 0 <= i < |xs| :: xs[i]| == |xs|
  {
    if xs != [] {
      var init := xs[..|xs| - 1];
      DistinctCard(init);
      assert (set i | 0 <= i < |xs| :: xs[i]) == (set i | 0 <= i < |init| :: init[i]) + {xs[|xs| - 1]};
    }
  }

  /** The configuration a node is built from: the matched channels in the order they were first matched. */
  function ConfigOf(available: map<string, MeterReaderNode.ChannelConfig>, order: seq<string>)
    : (config: seq<(string, MeterReaderNode.ChannelConfig)>)
    requires available.Keys == set i | 0 <= i < |order| :: order[i]
    ensures MeterReaderNode.Names(config) == order
  {
    var config := seq(|order|, j requires 0 <= j < |order| => (order[j], available[order[j]]));
    assert MeterReaderNode.Names(config) == order;
    config
  }

  /** The configuration's `get`s all answer exactly when those of the matched channels do. */
  lemma ConfigAnswered(available: map<string, MeterReaderNode.ChannelConfig>, order: seq<string>,
                       answers: string -> GetAnswer)
    requires available.Keys == set i | 0 <= i < |order| :: order[i]
    ensures AllAnswered(ConfigOf(available, order), answers) <==> MatchedAnswered(available, answers)
  {
    var config := ConfigOf(available, order);
    forall k | k in available
      ensures exists i :: 0 <= i < |config| && config[i].1 == available[k]
    {
      var i :| 0 <= i < |order| && order[i] == k;
      assert config[i].1 == available[k];
    }
  }

  /** The table seeded from the configuration is the one seeded from the matched channels, one per channel. */
  lemma ConfigSeeded(available: map<string, MeterReaderNode.ChannelConfig>, order: seq<string>,
                     answers: string -> GetAnswer)
    requires available.Keys == set i | 0 <= i < |order| :: order[i]
    requires forall i, j :: 0 <= i < j < |order| ==> order[i] != order[j]
    requires MatchedAnswered(available, answers)
    ensures AllAnswered(ConfigOf(available, order), answers)
    ensures Seeded(ConfigOf(available, order), answers) == SeededTable(available, answers)
    ensures |order| == |available|
  {
    var config := ConfigOf(available, order);
    ConfigAnswered(available, order, answers);
    SeededKeys(config, answers);
    SeededValues(config, answers);
    forall k | k in available
      ensures k in Seeded(config, answers) && Seeded(config, answers)[k] == SeedFrom(available[k], answers)
    {
      var i :| 0 <= i < |order| && order[i] == k;
      assert config[i].0 == k;
    }
    DistinctCard(order);
  }

  /**
   * The part of the device loop after the reader's poll: match the sample, build a node
   * over the matched channels and push the sample once; the node, when that push returns
   * true.
   */
  method RegisterDevice(sample: LegacySample, chans: seq<ConfigChannel>, gateway: Gateway,
                        parseTimespan: string -> nat, now: real)
    returns (r: Result<Option<Node>, ConfigError>)
    requires NonNegativeIntervals(chans)
    modifies gateway`uploads
    ensures var (res, us) := Registration(sample, chans, gateway, parseTimespan, now, old(gateway.uploads));
      && gateway.uploads == us
      && (r.Err? <==> res.Err?)
      && (r.Err? ==> r.error == res.error)
      && (r.Ok? ==> (r.value.Some? <==> res.value))
    ensures r.Ok? && r.value.Some? ==> var n := r.value.value;
      && fresh(n) && n.Valid() && n.keys != [] && n.gateway == gateway
      && (set i | 0 <= i < |n.keys| :: n.keys[i]) == Matched(sample.entries, chans, parseTimespan).Keys
      && MatchedAnswered(Matched(sample.entries, chans, parseTimespan), gateway.answers)
      && n.channels == PushAll(gateway, PushState(SeededTable(Matched(sample.entries, chans, parseTimespan), gateway.answers),
                                                  0, old(gateway.uploads)),
                               sample.entries, sample.time, now).state.infos
  {
    var available, order := MatchChannels(sample.entries, chans, parseTimespan);
    if available == map[] {
      return Ok(None);
    }
    var config := ConfigOf(available, order);
    assert order != [] by {
      var k :| k in available;
    }
    ConfigAnswered(available, order, gateway.answers);
    var created := Create(config, gateway);
    if created.Err? {
      return Err(MissingRows);
    }
    var node := created.value;
    ConfigSeeded(available, order, gateway.answers);
    var pushed := node.PollAndPush(Some(sample), None, now);
    if pushed.Err? {
      return Err(UncastableValue);
    }
    r := Ok(if pushed.value then Some(node) else None);
  }

  /** A configured device: each key may be missing; `polled` is what its reader's first poll returns. */
  datatype DeviceConfig = DeviceConfig(id: Option<string>, protocol: Option<string>, channels: Option<seq<ConfigChannel>>,
                                       polled: Option<LegacySample>)

  datatype MiddlewareConfig = MiddlewareConfig(kind: Option<string>, url: string, interpolate: Option<bool>)

  datatype Config = Config(devices: Option<seq<DeviceConfig>>, middleware: Option<MiddlewareConfig>)

  /** The exceptions that escape `map_configuration`. */
  datatype ConfigError =
    | UnsupportedProtocol   // the reader is None and `reader.poll()` fails
    | MissingRows           // a `get` compares a missing `rows` with 0
    | UncastableValue       // a value the first push cannot multiply

  /** The protocols a reader exists for. */
  predicate Supported(protocol: string) {
    protocol == "SML" || protocol == "PLAIN" || protocol == "BME280"
  }

  /** A device whose `id`, `protocol` and `channels` are all present. */
  predicate Complete(d: DeviceConfig) {
    d.id.Some? && d.protocol.Some? && d.channels.Some?
  }

  /** The intervals of every configured channel are non-negative. */
  predicate ChannelsNonNegative(devices: seq<DeviceConfig>) {
    forall j :: 0 <= j < |devices| && devices[j].channels.Some? ==> NonNegativeIntervals(devices[j].channels.value)
  }

  /** Where the device loop leaves off, from index i on: the first device that is incomplete or unsupported. */
  function StopAt(devices: seq<DeviceConfig>, i: nat): (k: nat)
    requires i <= |devices|
    ensures i <= k <= |devices|
    ensures forall j :: i <= j < k ==> Complete(devices[j]) && Supported(Strip(devices[j].protocol.value))
    ensures k < |devices| ==> !Complete(devices[k]) || !Supported(Strip(devices[k].protocol.value))
    decreases |devices| - i
  {
    if i == |devices| || !Complete(devices[i]) || !Supported(Strip(devices[i].protocol.value)) then i
    else StopAt(devices, i + 1)
  }

  /** Devices registered before a later outcome: their indices are put in front of it. */
  function Prepend(indices: seq<nat>, later: (Result<seq<nat>, ConfigError>, seq<Middleware.Upload>))
    : (Result<seq<nat>, ConfigError>, seq<Middleware.Upload>)
  {
    (if later.0.Ok? then Ok(indices + later.0.value) else later.0, later.1)
  }

  /**
   * What the device loop does from index i on, given the uploads sent so far: the indices of
   * the devices that become nodes, or the exception that escapes; and the uploads afterwards.
   */
  function Registrations(devices: seq<DeviceConfig>, i: nat, g: Gateway, parseTimespan: string -> nat, now: real,
                         uploads: seq<Middleware.Upload>): (Result<seq<nat>, ConfigError>, seq<Middleware.Upload>)
    requires i <= |devices| && ChannelsNonNegative(devices)
    decreases |devices| - i
  {
    if i == |devices| then (Ok([]), uploads)
    else
      var d := devices[i];
      if !Complete(d) then (Ok([]), uploads)
      else if !Supported(Strip(d.protocol.value)) then (Err(UnsupportedProtocol), uploads)
      else if d.polled.None? then Registrations(devices, i + 1, g, parseTimespan, now, uploads)
      else
        var (res, us) := Registration(d.polled.value, d.channels.value, g, parseTimespan, now, uploads);
        if res.Err? then (Err(res.error), us)
        else Prepend(if res.value then [i] else [], Registrations(devices, i + 1, g, parseTimespan, now, us))
  }

  /**
   * The devices that become nodes come in order, before the loop stops, each complete and
   * supported (by the definition of StopAt), with a sample and some matched channel.
   */
  lemma {:induction false} RegisteredDevices(devices: seq<DeviceConfig>, i: nat, g: Gateway,
                                             parseTimespan: string -> nat, now: real, uploads: seq<Middleware.Upload>)
    requires i <= |devices| && ChannelsNonNegative(devices)
    ensures var res := Registrations(devices, i, g, parseTimespan, now, uploads).0;
      && (res.Ok? ==> forall k :: 0 <= k < |res.value| ==>
            var j := res.value[k];
            && i <= j < StopAt(devices, i) && devices[j].polled.Some?
            && Matched(devices[j].polled.value.entries, devices[j].channels.value, parseTimespan) != map[])
      && (res.Ok? ==> forall k, l :: 0 <= k < l < |res.value| ==> res.value[k] < res.value[l])
    decreases |devices| - i
  {
    if i < |devices| && Complete(devices[i]) && Supported(Strip(devices[i].protocol.value)) {
      var d := devices[i];
      if d.polled.None? {
        RegisteredDevices(devices, i + 1, g, parseTimespan, now, uploads);
      } else {
        var (res, us) := Registration(d.polled.value, d.channels.value, g, parseTimespan, now, uploads);
        RegisteredDevices(devices, i + 1, g, parseTimespan, now, us);
      }
    }
  }

  /**
   * UnsupportedProtocol escapes only when the loop stops at a complete device, and stopping
   * there always raises (UnsupportedProtocol, unless an earlier device raised first).
   */
  lemma {:induction false} UnsupportedStops(devices: seq<DeviceConfig>, i: nat, g: Gateway,
                                            parseTimespan: string -> nat, now: real, uploads: seq<Middleware.Upload>)
    requires i <= |devices| && ChannelsNonNegative(devices)
    ensures var res := Registrations(devices, i, g, parseTimespan, now, uploads).0;
      && (res == Err(UnsupportedProtocol) ==> StopAt(devices, i) < |devices| && Complete(devices[StopAt(devices, i)]))
      && (StopAt(devices, i) < |devices| && Complete(devices[StopAt(devices, i)]) ==> res.Err?)
    decreases |devices| - i
  {
    if i < |devices| && Complete(devices[i]) && Supported(Strip(devices[i].protocol.value)) {
      var d := devices[i];
      if d.polled.None? {
        UnsupportedStops(devices, i + 1, g, parseTimespan, now, uploads);
      } else {
        var (res, us) := Registration(d.polled.value, d.channels.value, g, parseTimespan, now, uploads);
        UnsupportedStops(devices, i + 1, g, parseTimespan, now, us);
      }
    }
  }

  /** Putting no index in front changes nothing. */
  lemma PrependNothing(later: (Result<seq<nat>, ConfigError>, seq<Middleware.Upload>))
    ensures Prepend([], later) == later
  {
    if later.0.Ok? {
      assert [] + later.0.value == later.0.value;
    }
  }

  /** Putting two lists of indices in front, one after the other, is putting their concatenation in front. */
  lemma PrependPrepend(a: seq<nat>, b: seq<nat>, later: (Result<seq<nat>, ConfigError>, seq<Middleware.Upload>))
    ensures Prepend(a, Prepend(b, later)) == Prepend(a + b, later)
  {
    if later.0.Ok? {
      assert a + (b + later.0.value) == (a + b) + later.0.value;
    }
  }

  /** Each node comes from the device its index names: over that device's matched channels, on the shared gateway. */
  ghost predicate NodesFrom(nodes: seq<Node>, indices: seq<nat>, devices: seq<DeviceConfig>, g: Gateway,
                            parseTimespan: string -> nat, now: real)
    requires ChannelsNonNegative(devices)
    reads set k | 0 <= k < |nodes| :: nodes[k]
  {
    && |nodes| == |indices|
    && forall k :: 0 <= k < |nodes| ==> NodeFrom(nodes[k], indices[k], devices, g, parseTimespan, now)
  }

  /**
   * One node comes from device j: its keys are the matched channels, each keeps the uuid,
   * interval and factor it was matched with, and its table is the seeded table after the
   * first push of the device's sample.
   */
  ghost predicate NodeFrom(n: Node, j: nat, devices: seq<DeviceConfig>, g: Gateway, parseTimespan: string -> nat,
                           now: real)
    requires ChannelsNonNegative(devices)
    reads n
  {
    && j < |devices| && devices[j].polled.Some? && devices[j].channels.Some?
    && n.Valid() && n.keys != [] && n.gateway == g
    && var sample := devices[j].polled.value;
       var m := Matched(sample.entries, devices[j].channels.value, parseTimespan);
       && (set i | 0 <= i < |n.keys| :: n.keys[i]) == m.Keys
       && MatchedAnswered(m, g.answers)
       && n.channels == PushAll(g, PushState(SeededTable(m, g.answers), 0, []), sample.entries, sample.time, now).state.infos
       && forall k :: k in n.channels ==>
            k in m && n.channels[k].uuid == m[k].uuid && n.channels[k].interval == m[k].interval
            && n.channels[k].factor == m[k].factor
  }

  /** How the device loop goes on after one device: it stops, an exception escapes, or it moves on. */
  datatype Step = Stop | Raise(error: ConfigError) | Next(node: Option<Node>)

  /** One turn of the device loop, stated against what the loop does from device i on. */
  method RegisterAt(devices: seq<DeviceConfig>, i: nat, g: Gateway, parseTimespan: string -> nat, now: real)
    returns (step: Step)
    requires i < |devices| && ChannelsNonNegative(devices)
    modifies g`uploads
    ensures step.Stop? ==> Registrations(devices, i, g, parseTimespan, now, old(g.uploads)) == (Ok([]), g.uploads)
    ensures step.Raise? ==> Registrations(devices, i, g, parseTimespan, now, old(g.uploads)) == (Err(step.error), g.uploads)
    ensures step.Next? ==>
      Registrations(devices, i, g, parseTimespan, now, old(g.uploads))
      == Prepend(if step.node.Some? then [i] else [], Registrations(devices, i + 1, g, parseTimespan, now, g.uploads))
    ensures step.Next? && step.node.Some? ==> fresh(step.node.value) && NodeFrom(step.node.value, i, devices, g, parseTimespan, now)
  {
    var device := devices[i];
    if device.id.None? || device.protocol.None? || device.channels.None? {
      return Stop;
    }
    var protocol := Strip(device.protocol.value);
    if !Supported(protocol) {
      return Raise(UnsupportedProtocol);
    }
    if device.polled.None? {
      PrependNothing(Registrations(devices, i + 1, g, parseTimespan, now, g.uploads));
      return Next(None);
    }
    var registered := RegisterDevice(device.polled.value, device.channels.value, g, parseTimespan, now);
    if registered.Err? {
      return Raise(registered.error);
    }
    if registered.value.Some? {
      var sample := device.polled.value;
      ghost var table := SeededTable(Matched(sample.entries, device.channels.value, parseTimespan), g.answers);
      PushIgnoresUploads(g, table, 0, old(g.uploads), [], sample.entries, sample.time, now);
      PushKeepsSettings(g, PushState(table, 0, []), sample.entries, sample.time, now);
    }
    step := Next(registered.value);
  }

  /** The device loop of `map_configuration`, on the one gateway, stated against `Registrations`. */
  method RegisterAll(devices: seq<DeviceConfig>, g: Gateway, parseTimespan: string -> nat, now: real)
    returns (r: Result<seq<Node>, ConfigError>)
    requires ChannelsNonNegative(devices)
    modifies g`uploads
    ensures g.uploads == Registrations(devices, 0, g, parseTimespan, now, old(g.uploads)).1
    ensures r.Err? <==> Registrations(devices, 0, g, parseTimespan, now, old(g.uploads)).0.Err?
    ensures r.Err? ==> r.error == Registrations(devices, 0, g, parseTimespan, now, old(g.uploads)).0.error
    ensures r.Ok? ==> NodesFrom(r.value, Registrations(devices, 0, g, parseTimespan, now, old(g.uploads)).0.value,
                                devices, g, parseTimespan, now)
    ensures r.Ok? ==> forall k :: 0 <= k < |r.value| ==> fresh(r.value[k])
  {
    ghost var whole := Registrations(devices, 0, g, parseTimespan, now, g.uploads);
    var nodes: seq<Node> := [];
    ghost var origin: seq<nat> := [];
    PrependNothing(whole);
    var i := 0;
    while i < |devices|
      invariant 0 <= i <= |devices|
      invariant whole == Prepend(origin, Registrations(devices, i, g, parseTimespan, now, g.uploads))
      invariant NodesFrom(nodes, origin, devices, g, parseTimespan, now)
      invariant forall k :: 0 <= k < |nodes| ==> fresh(nodes[k])
    {
      var step := RegisterAt(devices, i, g, parseTimespan, now);
      match step
      case Stop =>
        assert whole.0.value == origin + [];
        return Ok(nodes);
      case Raise(e) =>
        return Err(e);
      case Next(node) =>
        ghost var added: seq<nat> := if node.Some? then [i] else [];
        PrependPrepend(origin, added, Registrations(devices, i + 1, g, parseTimespan, now, g.uploads));
        origin := origin + added;
        if node.Some? {
          nodes := nodes + [node.value];
        }
        i := i + 1;
    }
    assert whole.0.value == origin + [];
    r := Ok(nodes);
  }

  /**
   * `map_configuration`: without `devices` or `middleware`, or with a middleware type other
   * than `volkszaehler`, no gateway and no node. Otherwise one gateway for all devices, and
   * per device in order: a missing `id`, `protocol` or `channels` ends the loop (the KeyError
   * is caught around it) with the nodes so far; an unsupported protocol raises; a device whose
   * poll gives nothing is passed over; otherwise it is registered as `Registration` says.
   */
  method MapConfiguration(config: Config, osError: Middleware.Upload -> bool, answers: string -> GetAnswer,
                          parseTimespan: string -> nat, now: real)
    returns (r: Result<seq<Node>, ConfigError>, ghost gateway: Gateway?)
    requires config.devices.Some? ==> ChannelsNonNegative(config.devices.value)
    ensures config.devices.None? || config.middleware.None? ==> r == Ok([]) && gateway == null
    ensures config.middleware.Some? && config.middleware.value.kind != Some("volkszaehler") ==> r == Ok([]) && gateway == null
    ensures config.devices.Some? && config.middleware.Some? && config.middleware.value.kind == Some("volkszaehler") ==>
      && gateway != null && fresh(gateway)
      && gateway.url == config.middleware.value.url && gateway.interpolate == config.middleware.value.interpolate.GetOr(true)
      && gateway.osError == osError && gateway.answers == answers
    ensures gateway != null ==>
      && gateway.uploads == Registrations(config.devices.value, 0, gateway, parseTimespan, now, []).1
      && (r.Err? <==> Registrations(config.devices.value, 0, gateway, parseTimespan, now, []).0.Err?)
      && (r.Err? ==> r.error == Registrations(config.devices.value, 0, gateway, parseTimespan, now, []).0.error)
      && (r.Ok? ==> NodesFrom(r.value, Registrations(config.devices.value, 0, gateway, parseTimespan, now, []).0.value,
                              config.devices.value, gateway, parseTimespan, now))
    ensures r.Ok? ==> forall k :: 0 <= k < |r.value| ==> fresh(r.value[k])
  {
    gateway := null;
    if config.devices.None? || config.middleware.None? {
      return Ok([]), gateway;
    }
    var middleware := config.middleware.value;
    if middleware.kind != Some("volkszaehler") {
      return Ok([]), gateway;
    }
    var g := new Gateway(middleware.url, middleware.interpolate.GetOr(true), osError, answers);
    gateway := g;
    r := RegisterAll(config.devices.value, g, parseTimespan, now);
  }
}
