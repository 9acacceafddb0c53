/**
 * The legacy Volkszaehler gateway (`gateway/gateway.py`): `post(uuid, value, timestamp)`
 * sends one value, converting a float timestamp in seconds to milliseconds and passing an
 * int through unchanged; `get(uuid)` reads the latest stored tuple back as whole seconds
 * and the value. The requests are abstract: the gateway records the uploads it sends,
 * whether a POST raises OSError is a function of the upload, and the decoded answer to a
 * GET is a function of the uuid.
 */
module LegacyGateway {
  import opened Wrappers
  import opened Middleware

  /** A timestamp as the legacy node hands it over: a Python int or a Python float. */
  datatype Stamp = IntStamp(i: int) | FloatStamp(x: real)

  /** The `ts` field `post` sends: a float is taken as seconds and truncated to milliseconds, an int is sent as it is. */
  function Millis(t: Stamp): (ms: int)
    ensures t.IntStamp? ==> ms == t.i
    ensures t.FloatStamp? && t.x >= 0.0 ==> ms as real <= t.x * 1000.0 < ms as real + 1.0
    ensures t.FloatStamp? && t.x < 0.0 ==> ms as real - 1.0 < t.x * 1000.0 <= ms as real
  {
    match t
    case IntStamp(i) => i
    case FloatStamp(x) => Trunc(x * 1000.0)
  }

  /** A float holding whole seconds is sent as exactly a thousand times that many milliseconds. */
  lemma MillisOfWholeSeconds(s: int)
    ensures Millis(FloatStamp(s as real)) == 1000 * s
  {
    TruncWhole(1000 * s);
  }

  /** The decoded answer to the GET of `get`: an OSError, or whether there is `data`, its `rows` if any, and its tuples. */
  datatype GetAnswer = GetOsError | GetReply(hasData: bool, rows: Option<int>, tuples: seq<Tuple>)

  /** `data` without `rows`: comparing None with 0 raises TypeError. */
  datatype GetError = RowsTypeError

  /** What `get` returns for an answer, by way of the latest tuple. */
  function LatestEntry(answer: GetAnswer): Result<Option<(int, real)>, GetError> {
    if answer.GetOsError? || !answer.hasData then Ok(None)
    else if answer.rows.None? then Err(RowsTypeError)
    else if answer.rows.value <= 0 || answer.tuples == [] then Ok(None)
    else
      var t := answer.tuples[LatestIndex(answer.tuples)];
      match NumberOf(t.value)
      case None => Ok(None)
      case Some(v) => Ok(Some((t.ms / 1000, v)))
  }

  /**
   * `get` raises exactly for `data` without `rows`; it yields an entry exactly when the
   * request succeeded, `rows` is positive, there is a tuple and the latest tuple holds a
   * number; that entry is the latest tuple's timestamp floored to whole seconds, which no
   * other tuple's exceeds, and its value.
   */
  lemma LatestEntrySpec(answer: GetAnswer)
    ensures LatestEntry(answer).Err? <==> answer.GetReply? && answer.hasData && answer.rows.None?
    ensures (LatestEntry(answer).Ok? && LatestEntry(answer).value.Some?)
        <==> (answer.GetReply? && answer.hasData && answer.rows.Some? && answer.rows.value > 0 && answer.tuples != []
              && NumberOf(answer.tuples[LatestIndex(answer.tuples)].value).Some?)
    ensures LatestEntry(answer).Ok? && LatestEntry(answer).value.Some? ==>
      var (ts, v) := LatestEntry(answer).value.value;
      && (forall j :: 0 <= j < |answer.tuples| ==> answer.tuples[j].ms / 1000 <= ts)
      && exists i :: IsLatest(answer.tuples, i) && ts * 1000 <= answer.tuples[i].ms < ts * 1000 + 1000
                     && NumberOf(answer.tuples[i].value) == Some(v)
  {
    var r := LatestEntry(answer);
    if r.Ok? && r.value.Some? {
      var ts := answer.tuples;
      var i := LatestIndex(ts);
      LatestIndexIsLatest(ts);
      forall j | 0 <= j < |ts| ensures ts[j].ms / 1000 <= ts[i].ms / 1000 {
        SecondsMonotone(ts[j].ms, ts[i].ms);
      }
    }
  }

  class Gateway {
    const url: string
    const interpolate: bool
    /** Whether sending an upload raises OSError. */
    const osError: Upload -> bool
    /** The decoded answer to the GET for a uuid. */
    const answers: string -> GetAnswer
    /** Every upload sent, in order. */
    var uploads: seq<Upload>

    constructor (url: string, interpolate: bool, osError: Upload -> bool, answers: string -> GetAnswer)
      ensures this.url == url && this.interpolate == interpolate
      ensures this.osError == osError && this.answers == answers && uploads == []
    {
      this.url := url;
      this.interpolate := interpolate;
      this.osError := osError;
      this.answers := answers;
      uploads := [];
    }

    /** The upload `post` sends for a uuid, a value and a timestamp. */
    function UploadOf(uuid: string, value: real, t: Stamp): Upload {
      Upload(UrlJoin([url, DataPath, uuid, Suffix]), Millis(t), value)
    }

    /** `post`: one upload; false only when it raises OSError, whatever the status code of the reply. */
    method Post(uuid: string, value: real, t: Stamp) returns (ok: bool)
      modifies this`uploads
      ensures uploads == old(uploads) + [UploadOf(uuid, value, t)]
      ensures ok == !osError(UploadOf(uuid, value, t))
    {
      var u := UploadOf(uuid, value, t);
      uploads := uploads + [u];
      ok := !osError(u);
    }

    /** `get`: the latest tuple as (whole seconds, value), None on OSError or no usable tuple, Err for missing `rows`. */
    method Get(uuid: string) returns (r: Result<Option<(int, real)>, GetError>)
      ensures r == LatestEntry(answers(uuid))
    {
      var answer := answers(uuid);
      if answer.GetOsError? || !answer.hasData {
        return Ok(None);
      }
      if answer.rows.None? {
        return Err(RowsTypeError);
      }
      if answer.rows.value <= 0 {
        return Ok(None);
      }
      var latest := Latest(answer.tuples);
      if latest.None? {
        return Ok(None);
      }
      var t := answer.tuples[latest.value];
      var v := NumberOf(t.value);
      if v.None? {
        return Ok(None);
      }
      r := Ok(Some((t.ms / 1000, v.value)));
    }
  }
}
