/**
 * The debugging gateway: instead of uploading, it keeps the last (timestamp, value) posted
 * under each uuid and answers upload-info queries from that table.
 */
module DebugGateway {
  import opened Wrappers
  import opened MeterReaderNode
  import opened Middleware

  /** The upload info the table gives for a channel: its own uuid, interval and factor with the stored pair. */
  function Lookup(table: map<string, (int, real)>, info: UploadInfo): (r: Option<UploadInfo>)
    ensures r.Some? <==> info.uuid in table
    ensures r.Some? ==> r.value.uuid == info.uuid && r.value.interval == info.interval && r.value.factor == info.factor
    ensures r.Some? ==> (r.value.lastUpload, r.value.lastValue) == table[info.uuid]
  {
    if info.uuid in table then
      var (t, v) := table[info.uuid];
      Some(UploadInfo(info.uuid, info.interval, info.factor, t, v))
    else None
  }

  class Gateway {
    /** `post_timestamps`: uuid to the last posted (timestamp, value). */
    var postTimestamps: map<string, (int, real)>

    constructor ()
      ensures postTimestamps == map[]
    {
      postTimestamps := map[];
    }

    /** `post`: record the sample timestamp and value under the channel's uuid, replacing any earlier pair; always succeeds. */
    method Post(channel: UploadInfo, value: real, sampleTimestamp: int, pollTimestamp: int) returns (ok: bool)
      modifies this
      ensures postTimestamps == old(postTimestamps)[channel.uuid := (sampleTimestamp, value)]
      ensures ok
    {
      postTimestamps := postTimestamps[channel.uuid := (sampleTimestamp, value)];
      ok := true;
    }

    /** `get_upload_info`: the stored pair for the channel's uuid, or None when it was never posted. */
    function GetUploadInfo(info: UploadInfo): (r: Option<UploadInfo>)
      reads this
      ensures r == Lookup(postTimestamps, info)
    {
      Lookup(postTimestamps, info)
    }

    /** `get_channels`: the debugging gateway knows no channels. */
    function GetChannels(): (r: seq<ChannelDescription>)
      ensures |r| == 0
    {
      []
    }
  }

  /** After a post, the info for that channel reads back the posted timestamp and value. */
  lemma PostThenGet(table: map<string, (int, real)>, c: UploadInfo, v: real, t: int)
    ensures Lookup(table[c.uuid := (t, v)], c) == Some(c.(lastUpload := t, lastValue := v))
  {
  }

  /** A post under one uuid leaves the answer for every other uuid as it was. */
  lemma PostKeepsOthers(table: map<string, (int, real)>, c: UploadInfo, v: real, t: int, other: UploadInfo)
    requires other.uuid != c.uuid
    ensures Lookup(table[c.uuid := (t, v)], other) == Lookup(table, other)
  {
  }

  /** A fresh gateway has nothing for any channel. */
  lemma NeverPosted(info: UploadInfo)
    ensures Lookup(map[], info) == None
  {
  }

  /** The round trip through the class: a post followed by a query for the same channel. */
  method PostAndQuery(g: Gateway, c: UploadInfo, v: real, t: int, poll: int) returns (r: Option<UploadInfo>)
    modifies g
    ensures r == Some(c.(lastUpload := t, lastValue := v))
  {
    var _ := g.Post(c, v, t, poll);
    r := g.GetUploadInfo(c);
  }
}
