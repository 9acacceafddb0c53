/**
 * What both Volkszaehler gateways share: the URL joining, the choice of the latest
 * (timestamp, value) tuple of a GET answer, the JSON values such an answer carries, the
 * hourly interpolation points, and Python's `int()` on a float.
 */
module Middleware {
  import opened Wrappers

  // ---------------------------------------------------------------------------
  // urljoin

  function TrimSlashLeft(s: string): (r: string)
    ensures r == [] || r[0] != '/'
  {
    if s != [] && s[0] == '/' then TrimSlashLeft(s[1..]) else s
  }

  function TrimSlashRight(s: string): (r: string)
    ensures r == [] || r[|r| - 1] != '/'
  {
    if s != [] && s[|s| - 1] == '/' then TrimSlashRight(s[..|s| - 1]) else s
  }

  /** `arg.strip('/')`: every leading and trailing slash removed. */
  function StripSlashes(s: string): (r: string)
    ensures r == [] || (r[0] != '/' && r[|r| - 1] != '/')
  {
    TrimSlashRightPrefix(TrimSlashLeft(s));
    TrimSlashRight(TrimSlashLeft(s))
  }

  lemma {:induction false} TrimSlashLeftSuffix(s: string)
    ensures |TrimSlashLeft(s)| <= |s| && TrimSlashLeft(s) == s[|s| - |TrimSlashLeft(s)|..]
  {
    if s != [] && s[0] == '/' {
      TrimSlashLeftSuffix(s[1..]);
    }
  }

  lemma {:induction false} TrimSlashRightPrefix(s: string)
    ensures |TrimSlashRight(s)| <= |s| && TrimSlashRight(s) == s[..|TrimSlashRight(s)|]
  {
    if s != [] && s[|s| - 1] == '/' {
      TrimSlashRightPrefix(s[..|s| - 1]);
    }
  }

  /** What is left is one contiguous piece of the argument. */
  lemma StripSlashesSlice(s: string)
    ensures exists i, j :: 0 <= i <= j <= |s| && StripSlashes(s) == s[i..j]
  {
    var l := TrimSlashLeft(s);
    var r := TrimSlashRight(l);
    TrimSlashLeftSuffix(s);
    TrimSlashRightPrefix(l);
    assert r == s[|s| - |l|..|s| - |l| + |r|];
  }

  predicate SlashFree(s: string) {
    s == [] || (s[0] != '/' && s[|s| - 1] != '/')
  }

  /** A part without slashes at either end is left as it is. */
  lemma StripSlashesKeeps(s: string)
    requires SlashFree(s)
    ensures StripSlashes(s) == s
  {
  }

  /** `'/'.join(parts)`. */
  function JoinSlash(parts: seq<string>): string {
    if |parts| == 0 then ""
    else if |parts| == 1 then parts[0]
    else JoinSlash(parts[..|parts| - 1]) + "/" + parts[|parts| - 1]
  }

  function StripAll(args: seq<string>): (r: seq<string>)
    ensures |r| == |args| && forall i :: 0 <= i < |args| ==> r[i] == StripSlashes(args[i])
  {
    seq(|args|, i requires 0 <= i < |args| => StripSlashes(args[i]))
  }

  predicate StartsWith(s: string, prefix: string) {
    |prefix| <= |s| && s[..|prefix|] == prefix
  }

  /** `str.replace('/.', '.')`: occurrences found left to right, without overlap. */
  function ReplaceSlashDot(s: string): (r: string)
    ensures |r| <= |s|
  {
    if |s| >= 2 && s[0] == '/' && s[1] == '.' then "." + ReplaceSlashDot(s[2..])
    else if s == [] then []
    else [s[0]] + ReplaceSlashDot(s[1..])
  }

  /** No slash is directly followed by a dot. */
  predicate NoSlashDot(s: string) {
    forall i :: 0 <= i < |s| - 1 ==> !(s[i] == '/' && s[i + 1] == '.')
  }

  /** `urljoin(*args)`: strip the slashes of every part, join with `/`, default the scheme, drop the slash before a dot. */
  function UrlJoin(args: seq<string>): string {
    var url := JoinSlash(StripAll(args));
    var url := if StartsWith(url, "http") then url else "http://" + url;
    ReplaceSlashDot(url)
  }

  /** Text without `/.` is left as it is. */
  lemma {:induction false} ReplaceKeeps(s: string)
    requires NoSlashDot(s)
    ensures ReplaceSlashDot(s) == s
  {
    if s != [] {
      assert NoSlashDot(s[1..]) by {
        forall i | 0 <= i < |s[1..]| - 1 ensures !(s[1..][i] == '/' && s[1..][i + 1] == '.') {
          assert s[1..][i] == s[i + 1] && s[1..][i + 1] == s[i + 2];
        }
      }
      ReplaceKeeps(s[1..]);
    }
  }

  /** Replacing in two pieces is replacing in their concatenation, unless a `/.` straddles the seam. */
  lemma {:induction false} ReplaceAppend(a: string, b: string)
    requires !(a != [] && a[|a| - 1] == '/' && b != [] && b[0] == '.')
    ensures ReplaceSlashDot(a + b) == ReplaceSlashDot(a) + ReplaceSlashDot(b)
    decreases |a|, 1
  {
    if a == [] {
      assert a + b == b;
    } else if |a| >= 2 && a[0] == '/' && a[1] == '.' {
      ReplaceAppendPair(a, b);
    } else {
      ReplaceAppendCons(a, b);
    }
  }

  lemma {:induction false} ReplaceAppendPair(a: string, b: string)
    requires |a| >= 2 && a[0] == '/' && a[1] == '.'
    requires !(a[|a| - 1] == '/' && b != [] && b[0] == '.')
    ensures ReplaceSlashDot(a + b) == ReplaceSlashDot(a) + ReplaceSlashDot(b)
    decreases |a|, 0
  {
    var rest := a[2..];
    assert a == "/." + rest;
    assert a + b == "/." + (rest + b);
    ReplacePair(rest);
    ReplacePair(rest + b);
    ReplaceAppend(rest, b);
    assert ("." + ReplaceSlashDot(rest)) + ReplaceSlashDot(b) == "." + (ReplaceSlashDot(rest) + ReplaceSlashDot(b));
  }

  lemma {:induction false} ReplaceAppendCons(a: string, b: string)
    requires a != [] && !(|a| >= 2 && a[0] == '/' && a[1] == '.')
    requires !(a[|a| - 1] == '/' && b != [] && b[0] == '.')
    ensures ReplaceSlashDot(a + b) == ReplaceSlashDot(a) + ReplaceSlashDot(b)
    decreases |a|, 0
  {
    var rest := a[1..];
    assert a == [a[0]] + rest;
    assert a + b == [a[0]] + (rest + b);
    ReplaceCons(a[0], rest);
    ReplaceCons(a[0], rest + b);
    ReplaceAppend(rest, b);
    assert ([a[0]] + ReplaceSlashDot(rest)) + ReplaceSlashDot(b) == [a[0]] + (ReplaceSlashDot(rest) + ReplaceSlashDot(b));
  }

  /** A slash-dot pair at the front becomes a dot. */
  lemma ReplacePair(s: string)
    ensures ReplaceSlashDot("/." + s) == "." + ReplaceSlashDot(s)
  {
    assert ("/." + s)[2..] == s;
  }

  /** A character that does not start a slash-dot pair is kept. */
  lemma ReplaceCons(c: char, s: string)
    requires !(c == '/' && s != [] && s[0] == '.')
    ensures ReplaceSlashDot([c] + s) == [c] + ReplaceSlashDot(s)
  {
    assert ([c] + s)[1..] == s;
  }

  /** A piece without `/.` appended to text the replacement keeps, with no `/.` across the seam, is kept too. */
  lemma ReplaceKeepsAppend(a: string, b: string)
    requires ReplaceSlashDot(a) == a && NoSlashDot(b)
    requires !(a != [] && a[|a| - 1] == '/' && b != [] && b[0] == '.')
    ensures ReplaceSlashDot(a + b) == a + b
  {
    ReplaceKeeps(b);
    ReplaceAppend(a, b);
  }

  /** Text without a dot has no `/.`. */
  lemma NoDotNoSlashDot(s: string)
    requires forall i :: 0 <= i < |s| ==> s[i] != '.'
    ensures NoSlashDot(s)
  {
  }

  /** Four parts without slashes at their ends, joined. */
  lemma JoinFour(a: string, b: string, c: string, d: string)
    requires SlashFree(a) && SlashFree(b) && SlashFree(c) && SlashFree(d)
    ensures JoinSlash(StripAll([a, b, c, d])) == a + "/" + b + "/" + c + "/" + d
  {
    StripSlashesKeeps(a);
    StripSlashesKeeps(b);
    StripSlashesKeeps(c);
    StripSlashesKeeps(d);
    var args := [a, b, c, d];
    var parts := StripAll(args);
    assert parts[0] == StripSlashes(args[0]) == a;
    assert parts[1] == StripSlashes(args[1]) == b;
    assert parts[2] == StripSlashes(args[2]) == c;
    assert parts[3] == StripSlashes(args[3]) == d;
    assert parts == [a, b, c, d];
    var p3 := parts[..3];
    assert p3 == [a, b, c];
    var p2 := p3[..2];
    assert p2 == [a, b];
    assert p2[..1] == [a];
    assert JoinSlash(p2) == a + "/" + b;
    assert JoinSlash(p3) == a + "/" + b + "/" + c;
  }

  /** What follows a non-empty address after a slash does not decide whether the URL starts with `http`. */
  lemma HttpPrefix(url: string, rest: string)
    requires url != [] && rest != [] && rest[0] == '/'
    ensures StartsWith(url + rest, "http") <==> StartsWith(url, "http")
  {
    if |url| < 4 {
      assert (url + rest)[|url|] == '/';
    } else {
      assert (url + rest)[..4] == url[..4];
    }
  }

  /** The slash in front of a piece that starts with a dot is dropped. */
  lemma ReplaceSlashBefore(a: string, b: string)
    requires ReplaceSlashDot(a) == a && (a == [] || a[|a| - 1] != '/')
    requires b != [] && b[0] == '.' && NoSlashDot(b)
    ensures ReplaceSlashDot(a + "/" + b) == a + b
  {
    var sb := "/" + b;
    assert a + "/" + b == a + sb;
    ReplaceAppend(a, sb);
    assert sb[2..] == b[1..];
    ReplaceKeeps(b[1..]);
    assert "." + b[1..] == b;
  }

  /** A part that the replacement keeps, followed by a slash and a part without a leading dot. */
  lemma ReplaceKeepsJoin(a: string, b: string)
    requires ReplaceSlashDot(a) == a && NoSlashDot(b) && (b == [] || b[0] != '.')
    requires a == [] || a[|a| - 1] != '/'
    ensures ReplaceSlashDot(a + "/" + b) == a + "/" + b
  {
    var slash := "/";
    NoDotNoSlashDot(slash);
    ReplaceKeepsAppend(a, slash);
    var aSlash := a + slash;
    assert aSlash[|aSlash| - 1] == '/';
    ReplaceKeepsAppend(aSlash, b);
  }

  /** The replacement on the joined parts only drops the slash before the suffix. */
  lemma ReplaceJoined(url: string, data: string, uuid: string, json: string)
    requires url != [] && NoSlashDot(url) && url[|url| - 1] != '/'
    requires data != [] && data[0] != '.' && NoSlashDot(data) && data[|data| - 1] != '/'
    requires uuid != [] && uuid[0] != '.' && NoSlashDot(uuid) && uuid[|uuid| - 1] != '/'
    requires json != [] && json[0] == '.' && NoSlashDot(json)
    ensures ReplaceSlashDot(url + "/" + data + "/" + uuid + "/" + json) == url + "/" + data + "/" + uuid + json
  {
    var x1 := url + "/" + data;
    var x2 := x1 + "/" + uuid;
    ReplaceKeeps(url);
    ReplaceKeepsJoin(url, data);
    assert x1[|x1| - 1] == data[|data| - 1];
    ReplaceKeepsJoin(x1, uuid);
    assert x2[|x2| - 1] == uuid[|uuid| - 1];
    ReplaceSlashBefore(x2, json);
  }

  /** `urljoin(url, data, uuid, json)` for plain parts and a suffix that starts with a dot. */
  lemma JoinedUrl(url: string, data: string, uuid: string, json: string)
    requires url != [] && url[0] != '.' && NoSlashDot(url) && SlashFree(url)
    requires data != [] && data[0] != '.' && NoSlashDot(data) && SlashFree(data)
    requires uuid != [] && uuid[0] != '.' && NoSlashDot(uuid) && SlashFree(uuid)
    requires json != [] && json[0] == '.' && NoSlashDot(json) && SlashFree(json)
    ensures UrlJoin([url, data, uuid, json])
         == (if StartsWith(url, "http") then "" else "http://") + (url + "/" + data + "/" + uuid + json)
  {
    JoinFour(url, data, uuid, json);
    var joined := url + "/" + data + "/" + uuid + "/" + json;
    assert joined == url + ("/" + data + "/" + uuid + "/" + json);
    HttpPrefix(url, "/" + data + "/" + uuid + "/" + json);
    ReplaceJoined(url, data, uuid, json);
    var p: string := if StartsWith(url, "http") then "" else "http://";
    NoDotNoSlashDot(p);
    ReplaceKeeps(p);
    ReplaceAppend(p, joined);
  }

  /**
   * The data URL of a channel: `urljoin(url, 'data', uuid, '.json')` is the middleware
   * address, `/data/`, the uuid and `.json`, with `http://` in front unless the address
   * already starts with `http`.
   */
  lemma DataUrl(url: string, uuid: string)
    requires url != [] && url[0] != '.' && NoSlashDot(url) && SlashFree(url)
    requires uuid != [] && uuid[0] != '.' && NoSlashDot(uuid) && SlashFree(uuid)
    ensures UrlJoin([url, "data", uuid, ".json"])
         == (if StartsWith(url, "http") then "" else "http://") + (url + "/data/" + uuid + ".json")
  {
    var data, json := "data", ".json";
    NoDotNoSlashDot(data);
    assert NoSlashDot(json);
    JoinedUrl(url, data, uuid, json);
    assert url + "/" + data + "/" + uuid + json == url + "/data/" + uuid + ".json";
  }

  // ---------------------------------------------------------------------------
  // GET answers

  /** A JSON value as `json.loads` returns it. */
  datatype JsonValue = JNull | JBool(b: bool) | JInt(i: int) | JFloat(r: real) | JText(s: string)

  /** `isinstance(value, (int, float))`, under which a JSON boolean counts as the integer 0 or 1. */
  function NumberOf(v: JsonValue): (r: Option<real>)
    ensures r.Some? <==> v.JBool? || v.JInt? || v.JFloat?
  {
    match v
    case JBool(b) => Some(if b then 1.0 else 0.0)
    case JInt(i) => Some(i as real)
    case JFloat(x) => Some(x)
    case _ => None
  }

  /** One entry of `data.tuples`: the timestamp in milliseconds and the value. */
  datatype Tuple = Tuple(ms: int, value: JsonValue)

  /**
   * The entry a stable sort by timestamp puts last: no timestamp is greater, and every
   * later entry has a smaller one (earlier entries with the same timestamp stay before it).
   */
  predicate IsLatest(tuples: seq<Tuple>, i: int) {
    0 <= i < |tuples|
    && (forall j :: 0 <= j < |tuples| ==> tuples[j].ms <= tuples[i].ms)
    && (forall j :: i < j < |tuples| ==> tuples[j].ms < tuples[i].ms)
  }

  /** There is only one such entry. */
  lemma LatestUnique(tuples: seq<Tuple>, i: int, k: int)
    requires IsLatest(tuples, i) && IsLatest(tuples, k)
    ensures i == k
  {
    assert tuples[i].ms == tuples[k].ms;
  }

  /** The index of the last entry with the greatest timestamp, scanning from the front. */
  function LatestIndex(tuples: seq<Tuple>): (i: nat)
    requires tuples != []
    ensures i < |tuples|
  {
    if |tuples| == 1 then 0
    else
      var b := LatestIndex(tuples[..|tuples| - 1]);
      if tuples[|tuples| - 1].ms >= tuples[b].ms then |tuples| - 1 else b
  }

  /** That index is the entry a stable sort puts last. */
  lemma {:induction false} LatestIndexIsLatest(tuples: seq<Tuple>)
    requires tuples != []
    ensures IsLatest(tuples, LatestIndex(tuples))
  {
    if |tuples| > 1 {
      var init := tuples[..|tuples| - 1];
      LatestIndexIsLatest(init);
      assert forall j :: 0 <= j < |init| ==> init[j] == tuples[j];
    }
  }

  /** The whole seconds `ms // 1000` of a millisecond stamp never decrease as the stamp grows. */
  lemma SecondsMonotone(a: int, b: int)
    requires a <= b
    ensures a / 1000 <= b / 1000
  {
  }

  /** `tuples.sort(key=lambda x: x[0]); tuples[-1]`: the latest entry, or None (IndexError) for an empty list. */
  method Latest(tuples: seq<Tuple>) returns (r: Option<nat>)
    ensures r.None? <==> tuples == []
    ensures r.Some? ==> r.value == LatestIndex(tuples) && IsLatest(tuples, r.value)
  {
    if tuples == [] {
      return None;
    }
    var best := 0;
    var j := 1;
    while j < |tuples|
      invariant 1 <= j <= |tuples|
      invariant best == LatestIndex(tuples[..j])
    {
      assert tuples[..j + 1][..j] == tuples[..j];
      if tuples[j].ms >= tuples[best].ms {
        best := j;
      }
      j := j + 1;
    }
    assert tuples[..j] == tuples;
    LatestIndexIsLatest(tuples);
    r := Some(best);
  }

  // ---------------------------------------------------------------------------
  // Interpolation

  /** `hour / hours` with true division. */
  function Fraction(h: int, hours: int): (r: real)
    requires hours > 0
    ensures 0 < h < hours ==> 0.0 < r < 1.0
  {
    (h as real) / (hours as real)
  }

  /** The value at point `h` of `hours` between the last uploaded value and the new one. */
  function PointValue(last: real, value: real, h: int, hours: int): real
    requires hours > 0
  {
    last + (value - last) * Fraction(h, hours)
  }

  /** How many intermediate points `for hour in range(1, hours)` under `if hours <= 24` posts. */
  function PointCount(hours: int): (n: nat)
    ensures n <= 23
    ensures n > 0 <==> 1 < hours <= 24
  {
    if 1 < hours <= 24 then hours - 1 else 0
  }

  /** Every intermediate value lies between the last value and the new one, strictly when they differ. */
  lemma PointBetween(last: real, value: real, h: int, hours: int)
    requires 0 < h < hours
    ensures last <= value ==> last <= PointValue(last, value, h, hours) <= value
    ensures value <= last ==> value <= PointValue(last, value, h, hours) <= last
    ensures last != value ==> PointValue(last, value, h, hours) != last && PointValue(last, value, h, hours) != value
  {
    var f := Fraction(h, hours);
    var d := value - last;
    assert PointValue(last, value, h, hours) == last + d * f;
    if d > 0.0 {
      ScaleWithin(d, f);
    } else if d < 0.0 {
      ScaleWithin(-d, f);
      assert (-d) * f == -(d * f);
    }
  }

  /** Scaling a positive number by a fraction strictly between 0 and 1 leaves it strictly between 0 and itself. */
  lemma ScaleWithin(d: real, f: real)
    requires d > 0.0 && 0.0 < f < 1.0
    ensures 0.0 < d * f < d
  {
    PositiveProduct(d, f);
    PositiveProduct(d, 1.0 - f);
    assert d * (1.0 - f) == d - d * f;
  }

  lemma PositiveProduct(a: real, b: real)
    requires a > 0.0 && b > 0.0
    ensures a * b > 0.0
  {
  }

  // ---------------------------------------------------------------------------
  // Python's int() on a float

  /** `int(x)`: truncation toward zero. */
  function Trunc(x: real): (r: int)
    ensures x >= 0.0 ==> r >= 0 && r as real <= x < r as real + 1.0
    ensures x < 0.0 ==> r <= 0 && r as real - 1.0 < x <= r as real
  {
    if x >= 0.0 then x.Floor else -((-x).Floor)
  }

  /** A whole number survives the truncation. */
  lemma TruncWhole(i: int)
    ensures Trunc(i as real) == i
  {
  }

  /** A channel as the middleware describes it: uuid and title, with type and description (empty when not given). */
  datatype ChannelDescription = ChannelDescription(uuid: string, title: string, kind: string, description: string)

  /** The path and suffix of a channel's data URL. */
  const DataPath: string := "data"
  const Suffix: string := ".json"

  /** One POST to the middleware: the URL, the `ts` field in milliseconds and the `value` field. */
  datatype Upload = Upload(url: string, ms: int, value: real)
}
