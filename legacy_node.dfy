/**
 * The legacy meter reader node (`pymeterreader/meter_reader.py`): channels keyed by the
 * sample's object name, seeded from the legacy gateway's `get`, the poll interval, and
 * `poll_and_push`, which posts every due channel of a sample, after hourly interpolated
 * points when the gateway interpolates. Samples carry their variables as dictionaries,
 * modelled as `Entry` values with optional keys. Times are the Python ints and floats the
 * source passes around (`Stamp`); the clock is a parameter.
 */
module LegacyNode {
  import opened Wrappers
  import opened Common
  import opened Scheduling
  import opened Middleware
  import opened LegacyGateway
  import MeterReaderNode

  type ChannelConfig = MeterReaderNode.ChannelConfig

  /** A sample of the legacy readers: its time and its variables. */
  datatype LegacySample = LegacySample(time: Stamp, entries: seq<Entry>)

  /** `ChannelInfo`: the configuration plus the time and value of the last upload. */
  datatype ChannelInfo = ChannelInfo(uuid: string, interval: nat, factor: real, lastUpload: Stamp, lastValue: real)

  /** The number of seconds a timestamp stands for. */
  function StampSeconds(t: Stamp): real {
    match t
    case IntStamp(i) => i as real
    case FloatStamp(x) => x
  }

  // ---------------------------------------------------------------------------
  // Interpolation

  /** Python's `round` on a float: the nearest integer, and the even one of two equally near. */
  function RoundHalfEven(x: real): (r: int)
    ensures -0.5 <= r as real - x <= 0.5
    ensures (r as real - x == 0.5 || x - r as real == 0.5) ==> r % 2 == 0
  {
    var f := x.Floor;
    var d := x - f as real;
    if d < 0.5 then f
    else if d > 0.5 then f + 1
    else if f % 2 == 0 then f
    else f + 1
  }

  /** Halves go to the even neighbour, on both sides of zero. */
  lemma RoundHalfEvenExamples()
    ensures RoundHalfEven(2.5) == 2 && RoundHalfEven(3.5) == 4 && RoundHalfEven(-0.5) == 0 && RoundHalfEven(1.4) == 1
  {
    assert (2.5).Floor == 2 && (3.5).Floor == 3 && (-0.5).Floor == -1 && (1.4).Floor == 1;
  }

  /** `round((cur_time - last_upload) / 3600)`. */
  function InterpolationHours(now: real, lastUpload: Stamp): int {
    RoundHalfEven((now - StampSeconds(lastUpload)) / 3600.0)
  }

  /** `channel.last_upload + hour * 3600` as written: an int last upload gives an int, a float a float. */
  function ShiftedAsWritten(t: Stamp, h: int): Stamp {
    match t
    case IntStamp(i) => IntStamp(i + h * 3600)
    case FloatStamp(x) => FloatStamp(x + (h * 3600) as real)
  }

  /** The time of point `h`, as a float number of seconds, so that `post` converts it to milliseconds. */
  function PointStamp(t: Stamp, h: int): Stamp {
    FloatStamp(StampSeconds(t) + (h * 3600) as real)
  }

  /**
   * As written, a point after an int last upload (whole seconds, as `get` and the seeding
   * give it) is sent as that many seconds in the milliseconds field.
   */
  lemma ShiftedIntSentAsSeconds(i: int, h: int)
    ensures Millis(ShiftedAsWritten(IntStamp(i), h)) == i + 3600 * h
  {
  }

  /**
   * The concrete case: last upload 1600000000 from `get`, now 1600007200.0; the point of
   * hour 1 goes out with `ts` 1600003600, the value itself with 1600007200000.
   */
  lemma ShiftedAsWrittenExample()
    ensures InterpolationHours(1600007200.0, IntStamp(1600000000)) == 2
    ensures Millis(ShiftedAsWritten(IntStamp(1600000000), 1)) == 1600003600
    ensures Millis(FloatStamp(1600007200.0)) == 1600007200000
  {
    assert (2.0).Floor == 2;
    TruncWhole(1600007200000);
  }

  /** Corrected, a point is sent in milliseconds whichever kind of number the last upload was. */
  lemma PointStampMillis(i: int, h: int)
    ensures Millis(PointStamp(IntStamp(i), h)) == 1000 * (i + 3600 * h)
  {
    MillisOfWholeSeconds(i + 3600 * h);
  }

  /** After a float last upload the corrected point is the one the source computes. */
  lemma PointStampAgrees(x: real, h: int)
    ensures PointStamp(FloatStamp(x), h) == ShiftedAsWritten(FloatStamp(x), h)
  {
  }

  /** The interpolated uploads `__push_interpolated_data` sends before the value itself. */
  function PointUploads(g: Gateway, info: ChannelInfo, value: real, now: real): (us: seq<Upload>)
    ensures |us| == PointCount(InterpolationHours(now, info.lastUpload))
  {
    var hours := InterpolationHours(now, info.lastUpload);
    seq(PointCount(hours), k requires 0 <= k < PointCount(hours) =>
      g.UploadOf(info.uuid, PointValue(info.lastValue, value, k + 1, hours), PointStamp(info.lastUpload, k + 1)))
  }

  /**
   * With `hours` the rounded gap: no point when it exceeds 24 or is below 2, otherwise
   * `hours - 1` of them; point `k` lies `k + 1` hours after the last upload, strictly
   * before `hours` hours after it, with a value between the last value and the new one.
   */
  lemma PointUploadsSpec(g: Gateway, info: ChannelInfo, value: real, now: real)
    ensures var hours := InterpolationHours(now, info.lastUpload);
      && (hours > 24 || hours < 2 ==> PointUploads(g, info, value, now) == [])
      && (2 <= hours <= 24 ==> |PointUploads(g, info, value, now)| == hours - 1)
    ensures var hours := InterpolationHours(now, info.lastUpload);
      var us := PointUploads(g, info, value, now);
      forall k :: 0 <= k < |us| ==>
        && us[k].url == UrlJoin([g.url, DataPath, info.uuid, Suffix])
        && us[k].ms == Millis(PointStamp(info.lastUpload, k + 1))
        && StampSeconds(info.lastUpload) < StampSeconds(PointStamp(info.lastUpload, k + 1))
              < StampSeconds(info.lastUpload) + (hours * 3600) as real
        && (info.lastValue <= value ==> info.lastValue <= us[k].value <= value)
        && (value <= info.lastValue ==> value <= us[k].value <= info.lastValue)
  {
    var hours := InterpolationHours(now, info.lastUpload);
    var us := PointUploads(g, info, value, now);
    forall k | 0 <= k < |us|
      ensures (info.lastValue <= value ==> info.lastValue <= us[k].value <= value)
      ensures (value <= info.lastValue ==> value <= us[k].value <= info.lastValue)
    {
      PointBetween(info.lastValue, value, k + 1, hours);
    }
  }

  // ---------------------------------------------------------------------------
  // poll_and_push

  /** `if cur_unit:` — a missing or empty unit is falsy. */
  predicate HasUnit(e: Entry) {
    e.unit.UnitText? && e.unit.text != ""
  }

  /** What `poll_and_push` has done so far: the channel table, the count and the uploads sent. */
  datatype PushState = PushState(infos: map<string, ChannelInfo>, posted: nat, uploads: seq<Upload>)

  /** The state after some variables, and whether a TypeError has escaped. */
  datatype PushOutcome = PushOutcome(state: PushState, raised: bool)

  /** Whether a channel is due at `now`. */
  predicate Due(info: ChannelInfo, now: real) {
    StampSeconds(info.lastUpload) + info.interval as real <= now
  }

  /**
   * One variable of the sample: skipped without a truthy unit or when its stripped object
   * name is not a key; a value `float()` rejects (a missing value is `''`) skips it; a
   * TypeError escapes; a due channel gets its interpolated points, when the gateway
   * interpolates, then its value at the sample time, and an accepted post records `now`
   * and the value and counts; a channel that is not due counts without a post.
   */
  function PushEntry(g: Gateway, s: PushState, e: Entry, sampleTime: Stamp, now: real): PushOutcome {
    if !HasUnit(e) || Strip(Obis(e)) !in s.infos then PushOutcome(s, false)
    else
      var key := Strip(Obis(e));
      var info := s.infos[key];
      match CastValue(EntryValue(e), info.factor)
      case Err(CastValueError) => PushOutcome(s, false)
      case Err(CastTypeError) => PushOutcome(s, true)
      case Ok(v) =>
        if Due(info, now) then DuePost(g, s, key, info, v, sampleTime, now)
        else PushOutcome(s.(posted := s.posted + 1), false)
  }

  /** A due channel: the intermediate points when the gateway interpolates, then the value at the sample time; an accepted post records `now` and the value and counts. */
  function DuePost(g: Gateway, s: PushState, key: string, info: ChannelInfo, v: real, sampleTime: Stamp, now: real): PushOutcome {
    var main := g.UploadOf(info.uuid, v, sampleTime);
    var uploads := s.uploads + (if g.interpolate then PointUploads(g, info, v, now) else []) + [main];
    if !g.osError(main) then
      PushOutcome(PushState(s.infos[key := info.(lastUpload := FloatStamp(now), lastValue := v)], s.posted + 1, uploads), false)
    else PushOutcome(s.(uploads := uploads), false)
  }

  /** The variables of a sample in order, stopping at the first TypeError. */
  function PushAll(g: Gateway, s: PushState, es: seq<Entry>, sampleTime: Stamp, now: real): PushOutcome {
    if es == [] then PushOutcome(s, false)
    else
      var o := PushAll(g, s, es[..|es| - 1], sampleTime, now);
      if o.raised then o else PushEntry(g, o.state, es[|es| - 1], sampleTime, now)
  }

  lemma PushAllStep(g: Gateway, s: PushState, es: seq<Entry>, i: nat, sampleTime: Stamp, now: real)
    requires i < |es| && !PushAll(g, s, es[..i], sampleTime, now).raised
    ensures PushAll(g, s, es[..i + 1], sampleTime, now)
         == PushEntry(g, PushAll(g, s, es[..i], sampleTime, now).state, es[i], sampleTime, now)
  {
    assert es[..i + 1][..i] == es[..i];
  }

  /** Once a TypeError has escaped, the later variables change nothing. */
  lemma {:induction false} RaisedStays(g: Gateway, s: PushState, es: seq<Entry>, i: nat, sampleTime: Stamp, now: real)
    requires i <= |es| && PushAll(g, s, es[..i], sampleTime, now).raised
    ensures PushAll(g, s, es, sampleTime, now) == PushAll(g, s, es[..i], sampleTime, now)
    decreases |es| - i
  {
    if i < |es| {
      assert es[..i + 1][..i] == es[..i];
      RaisedStays(g, s, es, i + 1, sampleTime, now);
    } else {
      assert es[..i] == es;
    }
  }

  /** A variable whose unit key is missing, holds None or is empty changes nothing. */
  lemma FalsyUnitSkipped(g: Gateway, s: PushState, e: Entry, sampleTime: Stamp, now: real)
    requires e.unit.NoUnitKey? || e.unit.UnitNone? || e.unit == UnitText("")
    ensures PushEntry(g, s, e, sampleTime, now) == PushOutcome(s, false)
  {
  }

  /**
   * A due channel: the interpolated points, only when the gateway interpolates, go out
   * before the value at the sample time, and it counts exactly when that last post
   * raises no OSError.
   */
  lemma DueChannelPosts(g: Gateway, s: PushState, e: Entry, sampleTime: Stamp, now: real)
    requires HasUnit(e) && Strip(Obis(e)) in s.infos
    requires CastValue(EntryValue(e), s.infos[Strip(Obis(e))].factor).Ok?
    requires Due(s.infos[Strip(Obis(e))], now)
    ensures var info := s.infos[Strip(Obis(e))];
      var v := CastValue(EntryValue(e), info.factor).value;
      var o := PushEntry(g, s, e, sampleTime, now);
      var n := |s.uploads|;
      && !o.raised
      && o.state.uploads[..n] == s.uploads
      && o.state.uploads[n..] == (if g.interpolate then PointUploads(g, info, v, now) else []) + [g.UploadOf(info.uuid, v, sampleTime)]
      && (o.state.posted == s.posted + 1 <==> !g.osError(g.UploadOf(info.uuid, v, sampleTime)))
      && o.state.posted <= s.posted + 1
  {
    var info := s.infos[Strip(Obis(e))];
    var v := CastValue(EntryValue(e), info.factor).value;
    var o := PushEntry(g, s, e, sampleTime, now);
    var pre := if g.interpolate then PointUploads(g, info, v, now) else [];
    assert o.state.uploads == s.uploads + (pre + [g.UploadOf(info.uuid, v, sampleTime)]);
  }

  /** A channel that is not due sends nothing and counts. */
  lemma NotDueCounts(g: Gateway, s: PushState, e: Entry, sampleTime: Stamp, now: real)
    requires HasUnit(e) && Strip(Obis(e)) in s.infos
    requires CastValue(EntryValue(e), s.infos[Strip(Obis(e))].factor).Ok?
    requires !Due(s.infos[Strip(Obis(e))], now)
    ensures PushEntry(g, s, e, sampleTime, now) == PushOutcome(s.(posted := s.posted + 1), false)
  {
  }

  /**
   * A key that `strip` would change is never looked up: the variables are looked up by
   * their stripped name, and stripping twice changes nothing.
   */
  lemma {:induction false} UnstrippedKeyUntouched(g: Gateway, s: PushState, es: seq<Entry>, sampleTime: Stamp, now: real,
                                                  k: string)
    requires k in s.infos && Strip(k) != k
    ensures k in PushAll(g, s, es, sampleTime, now).state.infos
    ensures PushAll(g, s, es, sampleTime, now).state.infos[k] == s.infos[k]
  {
    if es != [] {
      UnstrippedKeyUntouched(g, s, es[..|es| - 1], sampleTime, now, k);
      StripIdempotent(Obis(es[|es| - 1]));
    }
  }

  /** The uploads only grow, and the count grows by at most one per variable. */
  lemma {:induction false} PushGrows(g: Gateway, s: PushState, es: seq<Entry>, sampleTime: Stamp, now: real)
    ensures var o := PushAll(g, s, es, sampleTime, now);
      && |s.uploads| <= |o.state.uploads| && o.state.uploads[..|s.uploads|] == s.uploads
      && s.posted <= o.state.posted <= s.posted + |es|
      && o.state.infos.Keys == s.infos.Keys
  {
    if es != [] {
      PushGrows(g, s, es[..|es| - 1], sampleTime, now);
      var o := PushAll(g, s, es[..|es| - 1], sampleTime, now);
      var o' := PushAll(g, s, es, sampleTime, now);
      assert o'.state.uploads[..|o.state.uploads|] == o.state.uploads;
      assert o'.state.uploads[..|s.uploads|] == o'.state.uploads[..|o.state.uploads|][..|s.uploads|];
    }
  }

  /** A channel's configuration, its uuid, interval and factor, is the same in both. */
  predicate SameSettings(a: ChannelInfo, b: ChannelInfo) {
    a.uuid == b.uuid && a.interval == b.interval && a.factor == b.factor
  }

  /** Pushing keeps every channel and its uuid, interval and factor: only the last upload and value move. */
  lemma {:induction false} PushKeepsSettings(g: Gateway, s: PushState, es: seq<Entry>, sampleTime: Stamp, now: real)
    ensures var o := PushAll(g, s, es, sampleTime, now);
      && o.state.infos.Keys == s.infos.Keys
      && forall k :: k in s.infos ==> SameSettings(o.state.infos[k], s.infos[k])
  {
    if es != [] {
      PushKeepsSettings(g, s, es[..|es| - 1], sampleTime, now);
    }
  }

  /** The table, the count and the TypeError of a push do not depend on the uploads sent before it. */
  lemma {:induction false} PushIgnoresUploads(g: Gateway, infos: map<string, ChannelInfo>, posted: nat,
                                              before: seq<Upload>, before': seq<Upload>,
                                              es: seq<Entry>, sampleTime: Stamp, now: real)
    ensures var o := PushAll(g, PushState(infos, posted, before), es, sampleTime, now);
      var o' := PushAll(g, PushState(infos, posted, before'), es, sampleTime, now);
      o.state.infos == o'.state.infos && o.state.posted == o'.state.posted && o.raised == o'.raised
  {
    if es != [] {
      var init := es[..|es| - 1];
      PushIgnoresUploads(g, infos, posted, before, before', init, sampleTime, now);
      var o := PushAll(g, PushState(infos, posted, before), init, sampleTime, now);
      var o' := PushAll(g, PushState(infos, posted, before'), init, sampleTime, now);
      if !o.raised {
        EntryIgnoresUploads(g, o.state, o'.state, es[|es| - 1], sampleTime, now);
      }
    }
  }

  /** One variable's step does not depend on the uploads sent before it either. */
  lemma EntryIgnoresUploads(g: Gateway, s: PushState, s': PushState, e: Entry, sampleTime: Stamp, now: real)
    requires s.infos == s'.infos && s.posted == s'.posted
    ensures var o := PushEntry(g, s, e, sampleTime, now);
      var o' := PushEntry(g, s', e, sampleTime, now);
      o.state.infos == o'.state.infos && o.state.posted == o'.state.posted && o.raised == o'.raised
  {
  }

  // ---------------------------------------------------------------------------
  // Seeding

  /** The upload state a channel starts from: `get`'s (whole seconds, value), or the int -1 and -1 without an entry. */
  function SeedOf(c: ChannelConfig, entry: Option<(int, real)>): ChannelInfo {
    match entry
    case None => ChannelInfo(c.uuid, c.interval, c.factor, IntStamp(-1), -1.0)
    case Some((t, v)) => ChannelInfo(c.uuid, c.interval, c.factor, IntStamp(t), v)
  }

  /** `get` raises for no configured channel. */
  predicate AllAnswered(config: seq<(string, ChannelConfig)>, answers: string -> GetAnswer) {
    forall i :: 0 <= i < |config| ==> LatestEntry(answers(config[i].1.uuid)).Ok?
  }

  /** The seed of one configured channel, from the answer to its `get`. */
  function SeedFrom(c: ChannelConfig, answers: string -> GetAnswer): ChannelInfo
    requires LatestEntry(answers(c.uuid)).Ok?
  {
    SeedOf(c, LatestEntry(answers(c.uuid)).value)
  }

  /** The channel table `__init__` builds, entry by entry. */
  function Seeded(config: seq<(string, ChannelConfig)>, answers: string -> GetAnswer): map<string, ChannelInfo>
    requires AllAnswered(config, answers)
  {
    if config == [] then map[]
    else
      var (name, c) := config[|config| - 1];
      Seeded(config[..|config| - 1], answers)[name := SeedFrom(c, answers)]
  }

  /** The answers for a prefix of the configuration do not raise either. */
  lemma AllAnsweredInit(config: seq<(string, ChannelConfig)>, answers: string -> GetAnswer)
    requires config != [] && AllAnswered(config, answers)
    ensures AllAnswered(config[..|config| - 1], answers)
  {
    var init := config[..|config| - 1];
    assert forall i :: 0 <= i < |init| ==> init[i] == config[i];
  }

  /** The table has exactly the configured names as keys. */
  lemma {:induction false} SeededKeys(config: seq<(string, ChannelConfig)>, answers: string -> GetAnswer)
    requires AllAnswered(config, answers)
    ensures Seeded(config, answers).Keys == set i | 0 <= i < |config| :: config[i].0
  {
    if config != [] {
      var init := config[..|config| - 1];
      AllAnsweredInit(config, answers);
      SeededKeys(init, answers);
      assert forall i :: 0 <= i < |init| ==> init[i] == config[i];
      assert (set i | 0 <= i < |config| :: config[i].0)
          == (set i | 0 <= i < |init| :: init[i].0) + {config[|config| - 1].0};
    }
  }

  /** With distinct names, each configured channel is seeded from the answer for its own uuid. */
  lemma {:induction false} SeededValues(config: seq<(string, ChannelConfig)>, answers: string -> GetAnswer)
    requires MeterReaderNode.DistinctNames(config) && AllAnswered(config, answers)
    ensures forall i :: 0 <= i < |config| ==>
      config[i].0 in Seeded(config, answers) && Seeded(config, answers)[config[i].0] == SeedFrom(config[i].1, answers)
  {
    if config != [] {
      var init := config[..|config| - 1];
      assert forall i :: 0 <= i < |init| ==> init[i] == config[i];
      assert MeterReaderNode.DistinctNames(init);
      AllAnsweredInit(config, answers);
      SeededValues(init, answers);
    }
  }

  // ---------------------------------------------------------------------------
  // The node

  class Node {
    /** The channel keys, in the order the configuration gives them. */
    const keys: seq<string>
    var channels: map<string, ChannelInfo>
    const gateway: Gateway

    ghost predicate Valid()
      reads this
    {
      && (forall i, j :: 0 <= i < j < |keys| ==> keys[i] != keys[j])
      && channels.Keys == set i | 0 <= i < |keys| :: keys[i]
    }

    /** A node over an already seeded table. */
    constructor (keys: seq<string>, channels: map<string, ChannelInfo>, gateway: Gateway)
      requires (forall i, j :: 0 <= i < j < |keys| ==> keys[i] != keys[j])
      requires channels.Keys == set i | 0 <= i < |keys| :: keys[i]
      ensures this.keys == keys && this.channels == channels && this.gateway == gateway
      ensures Valid()
    {
      this.keys := keys;
      this.channels := channels;
      this.gateway := gateway;
    }

    function Intervals(): (xs: seq<nat>)
      requires Valid()
      reads this
      ensures |xs| == |keys| && forall i :: 0 <= i < |keys| ==> xs[i] == channels[keys[i]].interval
    {
      assert forall i :: 0 <= i < |keys| ==> keys[i] in channels;
      IntervalsBy(keys, channels, (c: ChannelInfo) => c.interval)
    }

    /** `poll_interval`: the greatest common divisor of the channel intervals; an empty node raises. */
    method PollInterval() returns (r: Result<nat, IndexError>)
      requires Valid()
      ensures r.Err? <==> keys == []
      ensures r.Ok? ==> DividesAll(r.value, Intervals())
      ensures r.Ok? ==> forall d :: d > 0 && DividesAll(d, Intervals()) ==> Divides(d, r.value)
    {
      r := Scheduling.PollInterval(Intervals());
    }

    /** `__push_interpolated_data`: the hourly points between the last upload and now, when at most 24 hours apart. */
    method PushInterpolated(value: real, now: real, info: ChannelInfo)
      modifies gateway`uploads
      ensures gateway.uploads == old(gateway.uploads) + PointUploads(gateway, info, value, now)
    {
      var hours := InterpolationHours(now, info.lastUpload);
      ghost var us := PointUploads(gateway, info, value, now);
      if hours <= 24 {
        var hour := 1;
        while hour < hours
          invariant 1 <= hour <= (if hours > 1 then hours else 1)
          invariant gateway.uploads == old(gateway.uploads) + us[..hour - 1]
        {
          var btwTime := PointStamp(info.lastUpload, hour);
          var btwValue := info.lastValue + (value - info.lastValue) * Fraction(hour, hours);
          assert us[hour - 1] == gateway.UploadOf(info.uuid, btwValue, btwTime);
          assert us[..hour] == us[..hour - 1] + [us[hour - 1]];
          var _ := gateway.Post(info.uuid, btwValue, btwTime);
          hour := hour + 1;
        }
        assert us[..hour - 1] == us;
      }
    }

    /** The posts for a due channel and, when the main one is accepted, the new table entry. */
    method PostDue(key: string, info: ChannelInfo, v: real, t: Stamp, now: real, ghost posted: nat) returns (ok: bool)
      modifies this`channels, gateway`uploads
      ensures DuePost(gateway, PushState(old(channels), posted, old(gateway.uploads)), key, info, v, t, now)
           == PushOutcome(PushState(channels, if ok then posted + 1 else posted, gateway.uploads), false)
    {
      if gateway.interpolate {
        PushInterpolated(v, now, info);
      }
      ok := gateway.Post(info.uuid, v, t);
      if ok {
        channels := channels[key := info.(lastUpload := FloatStamp(now), lastValue := v)];
      }
    }

    /** The body of the variable loop of `poll_and_push`, for one variable of the sample. */
    method PushOne(e: Entry, t: Stamp, now: real, ghost posted: nat) returns (counted: bool, raised: bool)
      modifies this`channels, gateway`uploads
      ensures PushEntry(gateway, PushState(old(channels), posted, old(gateway.uploads)), e, t, now)
           == PushOutcome(PushState(channels, if counted then posted + 1 else posted, gateway.uploads), raised)
      ensures raised ==> channels == old(channels) && gateway.uploads == old(gateway.uploads)
    {
      counted, raised := false, false;
      var unit := if e.unit.UnitText? then e.unit.text else "";
      if unit != "" && Strip(Obis(e)) in channels {
        var key := Strip(Obis(e));
        var info := channels[key];
        var cast := CastValue(EntryValue(e), info.factor);
        if cast.Err? {
          raised := cast.error == CastTypeError;
        } else if StampSeconds(info.lastUpload) + info.interval as real <= now {
          counted := PostDue(key, info, cast.value, t, now, posted);
        } else {
          counted := true;
        }
      }
    }

    /**
     * `poll_and_push(sample)`: `given` is the sample passed in, `polled` what the reader's
     * poll returns when none is. Without a sample nothing changes and the result is whether
     * the node has no channel; otherwise the variables are pushed in order and the result
     * is whether the count reached the number of channels; a TypeError escapes as Err.
     */
    method PollAndPush(given: Option<LegacySample>, polled: Option<LegacySample>, now: real)
      returns (r: Result<bool, CastError>)
      requires Valid()
      modifies this`channels, gateway`uploads
      ensures Valid()
      ensures var sample := if given.Some? then given else polled;
        && (sample.None? ==> r == Ok(keys == []) && channels == old(channels) && gateway.uploads == old(gateway.uploads))
        && (sample.Some? ==>
              var o := PushAll(gateway, PushState(old(channels), 0, old(gateway.uploads)), sample.value.entries,
                               sample.value.time, now);
              && channels == o.state.infos && gateway.uploads == o.state.uploads
              && (o.raised <==> r.Err?)
              && (!o.raised ==> r.value == (o.state.posted == |keys|)))
    {
      var sample := if given.Some? then given else polled;
      if sample.None? {
        return Ok(|keys| == 0);
      }
      var es := sample.value.entries;
      var t := sample.value.time;
      ghost var init := PushState(channels, 0, gateway.uploads);
      var posted := 0;
      var i := 0;
      while i < |es|
        invariant 0 <= i <= |es|
        invariant channels.Keys == old(channels).Keys
        invariant PushAll(gateway, init, es[..i], t, now) == PushOutcome(PushState(channels, posted, gateway.uploads), false)
      {
        PushAllStep(gateway, init, es, i, t, now);
        var counted, raised := PushOne(es[i], t, now, posted);
        if raised {
          RaisedStays(gateway, init, es, i + 1, t, now);
          return Err(CastTypeError);
        }
        if counted {
          posted := posted + 1;
        }
        i := i + 1;
      }
      assert es[..i] == es;
      r := Ok(posted == |keys|);
    }
  }

  /**
   * `MeterReaderNode(channels, reader, gateway)`: the channel table seeded by `get`, one
   * channel at a time; the TypeError of a `get` escapes and no node is built.
   */
  method Create(config: seq<(string, ChannelConfig)>, gateway: Gateway) returns (r: Result<Node, GetError>)
    requires MeterReaderNode.DistinctNames(config)
    ensures r.Err? <==> !AllAnswered(config, gateway.answers)
    ensures r.Ok? ==> && fresh(r.value) && r.value.Valid() && r.value.gateway == gateway
                      && r.value.keys == MeterReaderNode.Names(config)
                      && r.value.channels == Seeded(config, gateway.answers)
  {
    var table: map<string, ChannelInfo> := map[];
    var i := 0;
    while i < |config|
      invariant 0 <= i <= |config|
      invariant AllAnswered(config[..i], gateway.answers)
      invariant table == Seeded(config[..i], gateway.answers)
    {
      assert config[..i + 1][..i] == config[..i];
      var (name, c) := config[i];
      var entry := gateway.Get(c.uuid);
      if entry.Err? {
        return Err(entry.error);
      }
      var info;
      if entry.value.None? {
        info := ChannelInfo(c.uuid, c.interval, c.factor, IntStamp(-1), -1.0);
      } else {
        info := ChannelInfo(c.uuid, c.interval, c.factor, IntStamp(entry.value.value.0), entry.value.value.1);
      }
      table := table[name := info];
      i := i + 1;
    }
    assert config[..i] == config;
    SeededKeys(config, gateway.answers);
    var keys := MeterReaderNode.Names(config);
    assert (set j | 0 <= j < |keys| :: keys[j]) == (set j | 0 <= j < |config| :: config[j].0);
    var node := new Node(keys, table, gateway);
    r := Ok(node);
  }
}
