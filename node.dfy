/**
 * The meter reader node: the configured channels of one meter with their upload state,
 * seeded from the middleware, the poll interval, and `poll_and_push`, which posts every
 * due channel of a sample and records each accepted upload.
 *
 * The gateway is abstract: it records the posts it is given and answers each with the
 * middleware's verdict, a function of the post; the lookup of a channel's last entry is
 * a function of its uuid. The clock and the reader's poll are parameters.
 */
module MeterReaderNode {
  import opened Wrappers
  import opened Common
  import opened Scheduling

  /** A configured channel: the uuid to feed, the upload interval in seconds and the value factor. */
  datatype ChannelConfig = ChannelConfig(uuid: string, interval: nat, factor: real)

  /** `ChannelUploadInfo`: the configuration plus the time and value of the last upload. */
  datatype UploadInfo = UploadInfo(uuid: string, interval: nat, factor: real, lastUpload: int, lastValue: real)

  /** One call of `gateway.post(channel, value, sample_timestamp, poll_timestamp)`. */
  datatype Post = Post(info: UploadInfo, value: real, sampleTime: int, now: int)

  /** The middleware side of the node. */
  class Gateway {
    /** Every post issued, in order. */
    var posts: seq<Post>
    /** Whether the middleware accepts a post. */
    const accepts: Post -> bool
    /** The last (timestamp, value) the middleware holds for a uuid, if any. */
    const lookup: string -> Option<(int, real)>

    constructor (accepts: Post -> bool, lookup: string -> Option<(int, real)>)
      ensures posts == [] && this.accepts == accepts && this.lookup == lookup
    {
      posts := [];
      this.accepts := accepts;
      this.lookup := lookup;
    }

    method PostValue(p: Post) returns (ok: bool)
      modifies this`posts
      ensures posts == old(posts) + [p]
      ensures ok == accepts(p)
    {
      posts := posts + [p];
      ok := accepts(p);
    }
  }

  // ---------------------------------------------------------------------------
  // Seeding

  /** The upload state a channel starts from: the middleware's last entry, or -1 and -1 without one. */
  function Seed(c: ChannelConfig, entry: Option<(int, real)>): UploadInfo {
    match entry
    case None => UploadInfo(c.uuid, c.interval, c.factor, -1, -1.0)
    case Some((t, v)) => UploadInfo(c.uuid, c.interval, c.factor, t, v)
  }

  predicate DistinctNames(config: seq<(string, ChannelConfig)>) {
    forall i, j :: 0 <= i < j < |config| ==> config[i].0 != config[j].0
  }

  function Names(config: seq<(string, ChannelConfig)>): (names: seq<string>)
    ensures |names| == |config| && forall i :: 0 <= i < |config| ==> names[i] == config[i].0
  {
    seq(|config|, i requires 0 <= i < |config| => config[i].0)
  }

  /** The channel table the constructor builds from the configuration, entry by entry. */
  function Seeded(config: seq<(string, ChannelConfig)>, lookup: string -> Option<(int, real)>)
    : map<string, UploadInfo>
  {
    if config == [] then map[]
    else
      var (name, c) := config[|config| - 1];
      Seeded(config[..|config| - 1], lookup)[name := Seed(c, lookup(c.uuid))]
  }

  /** The table holds exactly the configured names. */
  lemma {:induction false} SeededKeys(config: seq<(string, ChannelConfig)>, lookup: string -> Option<(int, real)>)
    ensures Seeded(config, lookup).Keys == set i | 0 <= i < |config| :: config[i].0
  {
    if config != [] {
      var init := config[..|config| - 1];
      SeededKeys(init, lookup);
      assert forall i :: 0 <= i < |init| ==> init[i] == config[i];
      assert (set i | 0 <= i < |config| :: config[i].0)
          == (set i | 0 <= i < |init| :: init[i].0) + {config[|config| - 1].0};
    }
  }

  /**
   * With distinct names, every configured channel is in the table under its name, with its
   * uuid, interval and factor, and with the middleware's last entry or -1 and -1.
   */
  lemma {:induction false} SeededValues(config: seq<(string, ChannelConfig)>, lookup: string -> Option<(int, real)>)
    requires DistinctNames(config)
    ensures forall i :: 0 <= i < |config| ==>
      config[i].0 in Seeded(config, lookup) && Seeded(config, lookup)[config[i].0] == Seed(config[i].1, lookup(config[i].1.uuid))
  {
    if config != [] {
      var init := config[..|config| - 1];
      assert forall i :: 0 <= i < |init| ==> init[i] == config[i];
      assert DistinctNames(init);
      SeededValues(init, lookup);
    }
  }

  /** A seeded channel without a middleware entry is due at once: -1 plus its interval is never after a non-negative time. */
  lemma UnseededIsDue(c: ChannelConfig, now: int)
    requires now >= c.interval - 1
    ensures var u := Seed(c, None); u.lastUpload + u.interval <= now && u.lastValue == -1.0
  {
  }

  // ---------------------------------------------------------------------------
  // poll_and_push

  /** What `poll_and_push` has done so far: the channel table, the count and the posts issued. */
  datatype PushState = PushState(infos: map<string, UploadInfo>, posted: nat, posts: seq<Post>)

  /** The state after some channels, and whether a TypeError has escaped. */
  datatype PushOutcome = PushOutcome(state: PushState, raised: bool)

  /**
   * One channel of the sample: skipped without a unit or when its stripped name is not
   * configured; a value `float()` rejects skips it; a TypeError escapes; a due channel is
   * posted and, when accepted, records `now` and the cast value and counts; a channel that
   * is not due counts without a post.
   */
  function PushChannel(s: PushState, c: ChannelValue, sampleTime: int, now: int, accepts: Post -> bool)
    : PushOutcome
  {
    if c.unit.None? || Strip(c.channelName) !in s.infos then PushOutcome(s, false)
    else
      var key := Strip(c.channelName);
      var info := s.infos[key];
      match CastValue(c.value, info.factor)
      case Err(CastValueError) => PushOutcome(s, false)
      case Err(CastTypeError) => PushOutcome(s, true)
      case Ok(v) =>
        if info.lastUpload + info.interval <= now then
          var p := Post(info, v, sampleTime, now);
          if accepts(p) then
            PushOutcome(PushState(s.infos[key := info.(lastUpload := now, lastValue := v)], s.posted + 1, s.posts + [p]), false)
          else PushOutcome(s.(posts := s.posts + [p]), false)
        else PushOutcome(s.(posted := s.posted + 1), false)
  }

  /** The channels of a sample in order, stopping at the first TypeError. */
  function PushAll(s: PushState, cs: seq<ChannelValue>, sampleTime: int, now: int, accepts: Post -> bool)
    : PushOutcome
  {
    if cs == [] then PushOutcome(s, false)
    else
      var o := PushAll(s, cs[..|cs| - 1], sampleTime, now, accepts);
      if o.raised then o else PushChannel(o.state, cs[|cs| - 1], sampleTime, now, accepts)
  }

  /** One more channel, after a prefix that raised nothing. */
  lemma PushAllStep(s: PushState, cs: seq<ChannelValue>, i: nat, sampleTime: int, now: int, accepts: Post -> bool)
    requires i < |cs| && !PushAll(s, cs[..i], sampleTime, now, accepts).raised
    ensures PushAll(s, cs[..i + 1], sampleTime, now, accepts)
         == PushChannel(PushAll(s, cs[..i], sampleTime, now, accepts).state, cs[i], sampleTime, now, accepts)
  {
    assert cs[..i + 1][..i] == cs[..i];
  }

  /** Once a TypeError has escaped, the later channels change nothing. */
  lemma {:induction false} RaisedStays(s: PushState, cs: seq<ChannelValue>, i: nat, sampleTime: int, now: int,
                                       accepts: Post -> bool)
    requires i <= |cs| && PushAll(s, cs[..i], sampleTime, now, accepts).raised
    ensures PushAll(s, cs, sampleTime, now, accepts) == PushAll(s, cs[..i], sampleTime, now, accepts)
    decreases |cs| - i
  {
    if i < |cs| {
      assert cs[..i + 1][..i] == cs[..i];
      RaisedStays(s, cs, i + 1, sampleTime, now, accepts);
    } else {
      assert cs[..i] == cs;
    }
  }

  /** How one entry of the table may change: not at all, or by an upload at `now` of a channel that was due. */
  ghost predicate UpdatedAt(old_: UploadInfo, new_: UploadInfo, now: int) {
    new_ == old_
    || (old_.lastUpload + old_.interval <= now && new_ == old_.(lastUpload := now, lastValue := new_.lastValue))
  }

  /** Two changes of that kind in a row are one change of that kind. */
  lemma UpdatedAtTrans(a: UploadInfo, b: UploadInfo, c: UploadInfo, now: int)
    requires UpdatedAt(a, b, now) && UpdatedAt(b, c, now)
    ensures UpdatedAt(a, c, now) && c.lastUpload >= a.lastUpload
  {
  }

  /** One channel changes at most the entry under its stripped name, and only when it has a unit. */
  lemma PushChannelUpdates(s: PushState, c: ChannelValue, sampleTime: int, now: int, accepts: Post -> bool)
    ensures var o := PushChannel(s, c, sampleTime, now, accepts);
      && o.state.infos.Keys == s.infos.Keys
      && (forall k :: k in s.infos ==> UpdatedAt(s.infos[k], o.state.infos[k], now))
      && (forall k :: k in s.infos && (c.unit.None? || Strip(c.channelName) != k) ==> o.state.infos[k] == s.infos[k])
  {
  }

  /**
   * A push keeps the configured channels, touches only the channels the sample names (after
   * `strip`) with a unit, and changes an entry only by an upload at `now` of a due channel;
   * the last upload time never decreases.
   */
  lemma {:induction false} PushUpdates(s: PushState, cs: seq<ChannelValue>, sampleTime: int, now: int,
                                       accepts: Post -> bool)
    ensures var o := PushAll(s, cs, sampleTime, now, accepts);
      && o.state.infos.Keys == s.infos.Keys
      && (forall k :: k in s.infos ==> UpdatedAt(s.infos[k], o.state.infos[k], now))
      && (forall k :: k in s.infos ==> o.state.infos[k].lastUpload >= s.infos[k].lastUpload)
      && (forall k :: k in s.infos && (forall j :: 0 <= j < |cs| && cs[j].unit.Some? ==> Strip(cs[j].channelName) != k)
            ==> o.state.infos[k] == s.infos[k])
  {
    if cs == [] {
      forall k | k in s.infos ensures UpdatedAt(s.infos[k], s.infos[k], now) { }
    } else {
      var init := cs[..|cs| - 1];
      var c := cs[|cs| - 1];
      PushUpdates(s, init, sampleTime, now, accepts);
      var o := PushAll(s, init, sampleTime, now, accepts);
      if !o.raised {
        var o' := PushChannel(o.state, c, sampleTime, now, accepts);
        PushChannelUpdates(o.state, c, sampleTime, now, accepts);
        forall k | k in s.infos
          ensures UpdatedAt(s.infos[k], o'.state.infos[k], now)
          ensures o'.state.infos[k].lastUpload >= s.infos[k].lastUpload
        {
          UpdatedAtTrans(s.infos[k], o.state.infos[k], o'.state.infos[k], now);
        }
        forall k | k in s.infos && (forall j :: 0 <= j < |cs| && cs[j].unit.Some? ==> Strip(cs[j].channelName) != k)
          ensures o'.state.infos[k] == s.infos[k]
        {
          assert forall j :: 0 <= j < |init| ==> init[j] == cs[j];
          assert c == cs[|cs| - 1];
        }
      } else {
        forall k | k in s.infos ensures o.state.infos[k].lastUpload >= s.infos[k].lastUpload {
          UpdatedAtTrans(s.infos[k], o.state.infos[k], o.state.infos[k], now);
        }
        forall k | k in s.infos && (forall j :: 0 <= j < |cs| && cs[j].unit.Some? ==> Strip(cs[j].channelName) != k)
          ensures o.state.infos[k] == s.infos[k]
        {
          assert forall j :: 0 <= j < |init| ==> init[j] == cs[j];
        }
      }
    }
  }

  /** Every post issued is of a due channel, at `now`, with the channel's state at that moment. */
  lemma {:induction false} PostsAreDue(s: PushState, cs: seq<ChannelValue>, sampleTime: int, now: int,
                                       accepts: Post -> bool)
    ensures var o := PushAll(s, cs, sampleTime, now, accepts);
      && |s.posts| <= |o.state.posts|
      && o.state.posts[..|s.posts|] == s.posts
      && forall j :: |s.posts| <= j < |o.state.posts| ==>
           var p := o.state.posts[j];
           p.now == now && p.sampleTime == sampleTime && p.info.lastUpload + p.info.interval <= now
  {
    if cs != [] {
      PostsAreDue(s, cs[..|cs| - 1], sampleTime, now, accepts);
    }
  }

  /** At most one count per channel of the sample, and one per accepted or skipped-as-not-due channel. */
  lemma {:induction false} PostedBound(s: PushState, cs: seq<ChannelValue>, sampleTime: int, now: int,
                                       accepts: Post -> bool)
    ensures s.posted <= PushAll(s, cs, sampleTime, now, accepts).state.posted <= s.posted + |cs|
  {
    if cs != [] {
      PostedBound(s, cs[..|cs| - 1], sampleTime, now, accepts);
    }
  }

  /** A channel whose value `float()` rejects is skipped, and the channels after it still run. */
  lemma CastFailureSkips(s: PushState, c: ChannelValue, sampleTime: int, now: int, accepts: Post -> bool)
    requires c.unit.Some? && Strip(c.channelName) in s.infos
    requires CastValue(c.value, s.infos[Strip(c.channelName)].factor) == Err(CastValueError)
    ensures PushChannel(s, c, sampleTime, now, accepts) == PushOutcome(s, false)
  {
  }

  /** The node. */
  class Node {
    /** The configured channel names, in configuration order. */
    const keys: seq<string>
    var channels: map<string, UploadInfo>
    const gateway: Gateway

    ghost predicate Valid()
      reads this
    {
      && (forall i, j :: 0 <= i < j < |keys| ==> keys[i] != keys[j])
      && channels.Keys == set i | 0 <= i < |keys| :: keys[i]
    }

    /** `__init__`: one entry per configured channel, seeded from the middleware. */
    constructor (config: seq<(string, ChannelConfig)>, gateway: Gateway)
      requires DistinctNames(config)
      ensures keys == Names(config) && this.gateway == gateway
      ensures channels == Seeded(config, gateway.lookup)
      ensures Valid()
    {
      this.gateway := gateway;
      keys := Names(config);
      var table: map<string, UploadInfo> := map[];
      var i := 0;
      while i < |config|
        invariant 0 <= i <= |config|
        invariant table == Seeded(config[..i], gateway.lookup)
      {
        assert config[..i + 1][..i] == config[..i];
        var (name, c) := config[i];
        var entry := gateway.lookup(c.uuid);
        var info;
        if entry.None? {
          info := UploadInfo(c.uuid, c.interval, c.factor, -1, -1.0);
        } else {
          info := UploadInfo(c.uuid, c.interval, c.factor, entry.value.0, entry.value.1);
        }
        table := table[name := info];
        i := i + 1;
      }
      assert config[..i] == config;
      channels := table;
      new;
      SeededKeys(config, gateway.lookup);
      SeededValues(config, gateway.lookup);
      assert (set i | 0 <= i < |keys| :: keys[i]) == (set i | 0 <= i < |config| :: config[i].0);
    }

    function Intervals(): (xs: seq<nat>)
      requires Valid()
      reads this
      ensures |xs| == |keys|
    {
      assert forall i :: 0 <= i < |keys| ==> keys[i] in channels;
      IntervalsBy(keys, channels, (c: UploadInfo) => c.interval)
    }

    /** `poll_interval`: the greatest common divisor of the channel intervals; no channel raises. */
    method PollInterval() returns (r: Result<nat, IndexError>)
      requires Valid()
      ensures r.Err? <==> keys == []
      ensures r.Ok? ==> DividesAll(r.value, Intervals())
      ensures r.Ok? ==> forall d :: d > 0 && DividesAll(d, Intervals()) ==> Divides(d, r.value)
    {
      r := Scheduling.PollInterval(Intervals());
    }

    /** The body of the channel loop of `poll_and_push`, for one channel of the sample. */
    method PushOne(c: ChannelValue, t: int, now: int) returns (counted: bool, raised: bool)
      modifies this`channels, gateway`posts
      ensures forall posted: nat ::
        PushChannel(PushState(old(channels), posted, old(gateway.posts)), c, t, now, gateway.accepts)
        == PushOutcome(PushState(channels, if counted then posted + 1 else posted, gateway.posts), raised)
      ensures raised ==> channels == old(channels) && gateway.posts == old(gateway.posts)
    {
      counted, raised := false, false;
      if c.unit.Some? && Strip(c.channelName) in channels {
        var key := Strip(c.channelName);
        var info := channels[key];
        var cast := CastValue(c.value, info.factor);
        if cast.Err? {
          raised := cast.error == CastTypeError;
        } else if info.lastUpload + info.interval <= now {
          var ok := gateway.PostValue(Post(info, cast.value, t, now));
          if ok {
            channels := channels[key := info.(lastUpload := now, lastValue := cast.value)];
            counted := true;
          }
        } else {
          counted := true;
        }
      }
    }

    /**
     * `poll_and_push(sample)`: `given` is the sample passed in, `polled` what the reader's
     * poll returns when none is. Without a sample nothing changes and the result is whether
     * no channel is configured; otherwise the channels are pushed in order and the result is
     * whether every configured channel counted; a TypeError escapes as Err.
     */
    method PollAndPush(given: Option<Sample>, polled: Option<Sample>, now: int) returns (r: Result<bool, CastError>)
      requires Valid()
      modifies this`channels, gateway`posts
      ensures Valid()
      ensures var sample := if given.Some? then given else polled;
        && (sample.None? ==> r == Ok(keys == []) && channels == old(channels) && gateway.posts == old(gateway.posts))
        && (sample.Some? ==>
              var o := PushAll(PushState(old(channels), 0, old(gateway.posts)), sample.value.channels,
                               sample.value.time, now, gateway.accepts);
              && channels == o.state.infos && gateway.posts == o.state.posts
              && (o.raised <==> r.Err?)
              && (!o.raised ==> r.value == (o.state.posted == |keys|)))
    {
      var sample := if given.Some? then given else polled;
      if sample.None? {
        return Ok(|keys| == 0);
      }
      var cs := sample.value.channels;
      var t := sample.value.time;
      ghost var init := PushState(channels, 0, gateway.posts);
      var posted := 0;
      var i := 0;
      while i < |cs|
        invariant 0 <= i <= |cs|
        invariant channels.Keys == old(channels).Keys
        invariant PushAll(init, cs[..i], t, now, gateway.accepts) == PushOutcome(PushState(channels, posted, gateway.posts), false)
      {
        PushAllStep(init, cs, i, t, now, gateway.accepts);
        var counted, raised := PushOne(cs[i], t, now);
        if raised {
          RaisedStays(init, cs, i + 1, t, now, gateway.accepts);
          return Err(CastTypeError);
        }
        if counted {
          posted := posted + 1;
        }
        i := i + 1;
      }
      assert cs[..i] == cs;
      r := Ok(posted == |keys|);
    }
  }
}
