/**
 * The Volkszaehler gateway: `post` uploads a channel value, preceded, when interpolation
 * is on, by hourly points between the last upload and now; `get_upload_info` reads the
 * latest stored tuple of a channel back; `get_channels` lists the channels the middleware
 * describes. The HTTP requests are abstract: the gateway records every upload it sends
 * and the middleware's verdict on an upload is a function of it; GET answers are
 * parameters, already decoded from JSON, with None for a failed request.
 */
module Volkszaehler {
  import opened Wrappers
  import opened Middleware
  import opened MeterReaderNode

  // ---------------------------------------------------------------------------
  // post

  /**
   * `time_between_uploads.seconds // 3600`: a `timedelta` keeps whole days apart, so only
   * the remainder within a day counts and the result is 0 to 23.
   */
  function Hours(pollTime: int, lastUpload: int): (h: int)
    ensures 0 <= h <= 23
  {
    ((pollTime - lastUpload) % 86400) / 3600
  }

  /** A gap of whole days more gives the same number of hours. */
  lemma DaysIgnored(pollTime: int, lastUpload: int, days: nat)
    ensures Hours(pollTime + 86400 * days, lastUpload) == Hours(pollTime, lastUpload)
  {
    var g := pollTime - lastUpload;
    var shift := 86400 * days;
    assert (g + shift) % 86400 == g % 86400;
  }

  /** A gap of under a day gives its whole hours. */
  lemma HoursWithinDay(pollTime: int, lastUpload: int)
    requires 0 <= pollTime - lastUpload < 86400
    ensures Hours(pollTime, lastUpload) == (pollTime - lastUpload) / 3600
  {
  }

  /** The intermediate points of `post`: at `last_upload + h*3600` with the value `h/hours` of the way. */
  function Points(channel: UploadInfo, value: real, hours: int): (ps: seq<(int, real)>)
    requires 0 <= hours <= 23
    ensures |ps| == PointCount(hours)
  {
    seq(PointCount(hours), k requires 0 <= k < PointCount(hours) =>
      (channel.lastUpload + (k + 1) * 3600, PointValue(channel.lastValue, value, k + 1, hours)))
  }

  /**
   * Every intermediate point lies strictly after the last upload and before `hours` hours
   * later, an hour apart, with a value between the last value and the new one.
   */
  lemma PointsBetween(channel: UploadInfo, value: real, hours: int)
    requires 0 <= hours <= 23
    ensures var ps := Points(channel, value, hours);
      forall k :: 0 <= k < |ps| ==>
        && channel.lastUpload < ps[k].0 < channel.lastUpload + hours * 3600
        && ps[k].0 == channel.lastUpload + (k + 1) * 3600
        && (channel.lastValue <= value ==> channel.lastValue <= ps[k].1 <= value)
        && (value <= channel.lastValue ==> value <= ps[k].1 <= channel.lastValue)
  {
    var ps := Points(channel, value, hours);
    forall k | 0 <= k < |ps|
      ensures channel.lastUpload < ps[k].0 < channel.lastUpload + hours * 3600
      ensures (channel.lastValue <= value ==> channel.lastValue <= ps[k].1 <= value)
      ensures (value <= channel.lastValue ==> value <= ps[k].1 <= channel.lastValue)
    {
      PointBetween(channel.lastValue, value, k + 1, hours);
    }
  }

  class Gateway {
    const url: string
    const interpolate: bool
    /** Whether the middleware accepts an upload (no request error and a success status). */
    const accepts: Upload -> bool
    /** Every upload sent, in order. */
    var uploads: seq<Upload>

    constructor (url: string, interpolate: bool, accepts: Upload -> bool)
      ensures this.url == url && this.interpolate == interpolate && this.accepts == accepts && uploads == []
    {
      this.url := url;
      this.interpolate := interpolate;
      this.accepts := accepts;
      uploads := [];
    }

    /** The upload `__post_value` sends: to the channel's data URL, the timestamp in milliseconds. */
    function UploadOf(uuid: string, value: real, time: int): Upload
    {
      Upload(UrlJoin([url, DataPath, uuid, Suffix]), time * 1000, value)
    }

    /** The intermediate uploads of a post. */
    function Intermediate(channel: UploadInfo, value: real, pollTime: int): (us: seq<Upload>)
      ensures !interpolate ==> us == []
      ensures interpolate ==> |us| == PointCount(Hours(pollTime, channel.lastUpload))
    {
      if !interpolate then []
      else
        var ps := Points(channel, value, Hours(pollTime, channel.lastUpload));
        seq(|ps|, k requires 0 <= k < |ps| => UploadOf(channel.uuid, ps[k].1, ps[k].0))
    }

    /** `__post_value`: one POST; true exactly when the middleware accepts it. */
    method PostValue(uuid: string, value: real, time: int) returns (ok: bool)
      modifies this`uploads
      ensures uploads == old(uploads) + [UploadOf(uuid, value, time)]
      ensures ok == accepts(UploadOf(uuid, value, time))
    {
      var u := UploadOf(uuid, value, time);
      uploads := uploads + [u];
      ok := accepts(u);
    }

    /**
     * `post`: the intermediate points (their results are discarded), then the value at the
     * sample time, whose result is returned.
     */
    method Post(channel: UploadInfo, value: real, sampleTime: int, pollTime: int) returns (ok: bool)
      modifies this`uploads
      ensures uploads == old(uploads) + Intermediate(channel, value, pollTime) + [UploadOf(channel.uuid, value, sampleTime)]
      ensures ok == accepts(UploadOf(channel.uuid, value, sampleTime))
    {
      if interpolate {
        var hours := Hours(pollTime, channel.lastUpload);
        ghost var ps := Points(channel, value, hours);
        ghost var us := Intermediate(channel, value, pollTime);
        var hour := 1;
        while hour < hours
          invariant 1 <= hour <= (if hours > 1 then hours else 1)
          invariant |us| == PointCount(hours)
          invariant uploads == old(uploads) + us[..hour - 1]
        {
          var btwTime := channel.lastUpload + hour * 3600;
          var btwValue := channel.lastValue + (value - channel.lastValue) * Fraction(hour, hours);
          assert us[hour - 1] == UploadOf(channel.uuid, btwValue, btwTime);
          assert us[..hour] == us[..hour - 1] + [us[hour - 1]];
          var _ := PostValue(channel.uuid, btwValue, btwTime);
          hour := hour + 1;
        }
        assert us[..hour - 1] == us;
      }
      ok := PostValue(channel.uuid, value, sampleTime);
    }

    // -------------------------------------------------------------------------
    // get_upload_info

    /** What `get_upload_info` returns for a GET answer, by way of the latest tuple. */
    function UploadInfoOf(channel: UploadInfo, answer: Option<DataAnswer>): (r: Option<UploadInfo>)
    {
      if answer.None? || !answer.value.hasData || answer.value.rows.GetOr(0) <= 0 || answer.value.tuples == [] then None
      else
        var t := answer.value.tuples[LatestIndex(answer.value.tuples)];
        match NumberOf(t.value)
        case None => None
        case Some(v) => Some(UploadInfo(channel.uuid, channel.interval, channel.factor, t.ms / 1000, v))
    }

    /**
     * `get_upload_info`: sort the tuples of the answer by timestamp and take the last;
     * None for a failed request, no `data`, no positive `rows`, no tuple or a value that
     * is not a number.
     */
    method GetUploadInfo(channel: UploadInfo, answer: Option<DataAnswer>) returns (r: Option<UploadInfo>)
      ensures r == UploadInfoOf(channel, answer)
    {
      if answer.None? || !answer.value.hasData || answer.value.rows.GetOr(0) <= 0 {
        return None;
      }
      var latest := Latest(answer.value.tuples);
      if latest.None? {
        return None;
      }
      var t := answer.value.tuples[latest.value];
      var v := NumberOf(t.value);
      if v.None? {
        return None;
      }
      r := Some(UploadInfo(channel.uuid, channel.interval, channel.factor, t.ms / 1000, v.value));
    }
  }

  /** A decoded GET answer: whether it has `data`, its `rows` if given, and its tuples. */
  datatype DataAnswer = DataAnswer(hasData: bool, rows: Option<int>, tuples: seq<Tuple>)

  /**
   * An answer yields upload info exactly when the request succeeded, there is `data` with
   * positive `rows` and a tuple, and the latest tuple holds a number; the info keeps the
   * channel's uuid, interval and factor, and carries a timestamp no other tuple exceeds,
   * taken from the last of the tuples with that timestamp.
   */
  lemma UploadInfoSpec(g: Gateway, channel: UploadInfo, answer: Option<DataAnswer>)
    ensures var r := g.UploadInfoOf(channel, answer);
      && (r.Some? <==> answer.Some? && answer.value.hasData && answer.value.rows.GetOr(0) > 0 && answer.value.tuples != []
                       && NumberOf(answer.value.tuples[LatestIndex(answer.value.tuples)].value).Some?)
      && (r.Some? ==>
            var ts := answer.value.tuples;
            && r.value.uuid == channel.uuid && r.value.interval == channel.interval && r.value.factor == channel.factor
            && (forall j :: 0 <= j < |ts| ==> ts[j].ms / 1000 <= r.value.lastUpload)
            && exists i :: IsLatest(ts, i) && r.value.lastUpload == ts[i].ms / 1000 && NumberOf(ts[i].value) == Some(r.value.lastValue))
  {
    var r := g.UploadInfoOf(channel, answer);
    if r.Some? {
      var ts := answer.value.tuples;
      var i := LatestIndex(ts);
      LatestIndexIsLatest(ts);
      forall j | 0 <= j < |ts| ensures ts[j].ms / 1000 <= r.value.lastUpload {
        SecondsMonotone(ts[j].ms, ts[i].ms);
      }
    }
  }

  // ---------------------------------------------------------------------------
  // get_channels

  /** A channel entry of the answer, each key present or not. */
  datatype ChannelEntry = ChannelEntry(uuid: Option<string>, title: Option<string>, kind: Option<string>, description: Option<string>)

  predicate Complete(e: ChannelEntry) {
    e.uuid.Some? && e.title.Some?
  }

  function Describe(e: ChannelEntry): ChannelDescription
    requires Complete(e)
  {
    ChannelDescription(e.uuid.value, e.title.value, e.kind.GetOr(""), e.description.GetOr(""))
  }

  /** The descriptions of the complete entries, in order. */
  function Described(es: seq<ChannelEntry>): seq<ChannelDescription> {
    if es == [] then []
    else
      var e := es[|es| - 1];
      Described(es[..|es| - 1]) + (if Complete(e) then [Describe(e)] else [])
  }

  /** `get_channels`: every entry with uuid and title, in order; nothing when the request fails. */
  method GetChannels(answer: Option<seq<ChannelEntry>>) returns (r: seq<ChannelDescription>)
    ensures answer.None? ==> r == []
    ensures answer.Some? ==> r == Described(answer.value)
  {
    r := [];
    if answer.None? {
      return;
    }
    var es := answer.value;
    var i := 0;
    while i < |es|
      invariant 0 <= i <= |es|
      invariant r == Described(es[..i])
    {
      assert es[..i + 1][..i] == es[..i];
      var e := es[i];
      if e.uuid.Some? && e.title.Some? {
        r := r + [ChannelDescription(e.uuid.value, e.title.value, e.kind.GetOr(""), e.description.GetOr(""))];
      }
      i := i + 1;
    }
    assert es[..i] == es;
  }

  /** The listing of two runs of entries is the two listings one after the other. */
  lemma {:induction false} DescribedAppend(a: seq<ChannelEntry>, b: seq<ChannelEntry>)
    ensures Described(a + b) == Described(a) + Described(b)
  {
    if b != [] {
      assert (a + b)[..|a + b| - 1] == a + b[..|b| - 1];
      DescribedAppend(a, b[..|b| - 1]);
    } else {
      assert a + b == a;
    }
  }

  /** A description is listed exactly when some complete entry describes it. */
  lemma {:induction false} DescribedMembers(es: seq<ChannelEntry>, d: ChannelDescription)
    ensures d in Described(es) <==> exists i :: 0 <= i < |es| && Complete(es[i]) && Describe(es[i]) == d
  {
    if es != [] {
      var init := es[..|es| - 1];
      DescribedMembers(init, d);
      assert forall i :: 0 <= i < |init| ==> init[i] == es[i];
      if exists i :: 0 <= i < |es| && Complete(es[i]) && Describe(es[i]) == d {
        var i :| 0 <= i < |es| && Complete(es[i]) && Describe(es[i]) == d;
        if i < |init| {
          assert init[i] == es[i];
        }
      }
    }
  }
}
