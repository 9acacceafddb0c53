/**
 * BaseReader: identity check of a fetched sample and the single-slot sample cache
 * behind `poll` and `retrieve`. The protocol-specific `_fetch_untracked` is not
 * called from here: its result is passed in.
 */
module BaseReader {
  import opened Wrappers
  import opened Common

  /** The configured meter id as given: a string or an integer. */
  datatype MeterIdArg = IdText(s: string) | IdInt(i: int)

  /** `str(meter_id)`. */
  function IdString(a: MeterIdArg): string {
    match a
    case IdText(s) => s
    case IdInt(i) => IntToString(i)
  }

  /**
   * `meter_id_matches`: no expected id accepts every sample; otherwise the stripped
   * expected id must occur in the stripped id the sample reports.
   */
  function MeterIdMatches(expected: Option<string>, sample: Sample): (r: bool)
    ensures expected.None? ==> r
    ensures expected.Some? ==>
      (r <==> exists k :: OccursAt(Strip(expected.value), Strip(sample.meterId), k))
  {
    if expected.None? then true
    else
      SubstringIff(Strip(expected.value), Strip(sample.meterId));
      IsSubstring(Strip(expected.value), Strip(sample.meterId))
  }

  /** The expiry test of `retrieve`: refresh when the cache is empty or strictly older than the interval. */
  predicate NeedsRefresh(cache: Option<Sample>, cacheInterval: int, now: int) {
    cache.None? || cache.value.time + cacheInterval < now
  }

  /** What `poll` returns when `fetch` returned `fetched`. */
  function PollResult(expected: Option<string>, fetched: Option<Sample>): (r: Option<Sample>)
    ensures r.Some? <==> fetched.Some? && MeterIdMatches(expected, fetched.value)
    ensures r.Some? ==> r == fetched
  {
    if fetched.Some? && MeterIdMatches(expected, fetched.value) then fetched else None
  }

  /** The cache after `poll`: overwritten exactly by a sample that `poll` returns. */
  function CacheAfterPoll(cache: Option<Sample>, expected: Option<string>, fetched: Option<Sample>): Option<Sample> {
    var r := PollResult(expected, fetched);
    if r.Some? then r else cache
  }

  /** One `retrieve` on the pure state: the new cache, which it also returns, and whether it fetched. */
  datatype RetrieveOutcome = RetrieveOutcome(cache: Option<Sample>, fetched: bool)

  function RetrieveStep(cache: Option<Sample>, expected: Option<string>, cacheInterval: int, now: int,
                        answer: Option<Sample>): (o: RetrieveOutcome)
    ensures o.fetched <==> NeedsRefresh(cache, cacheInterval, now)
    ensures !o.fetched ==> o.cache == cache
    ensures o.cache.None? ==> cache.None?
  {
    if NeedsRefresh(cache, cacheInterval, now)
    then RetrieveOutcome(CacheAfterPoll(cache, expected, answer), true)
    else RetrieveOutcome(cache, false)
  }

  /** A reader with an expected meter id, a cache interval and its cache slot. */
  class Reader {
    const meterId: Option<string>
    const cacheInterval: int
    var cache: Option<Sample>
    /** Number of device transactions (`_fetch_untracked` calls) performed so far. */
    var fetches: nat

    constructor (meterIdArg: Option<MeterIdArg>, cacheInterval: int)
      ensures meterId == (if meterIdArg.Some? then Some(IdString(meterIdArg.value)) else None)
      ensures this.cacheInterval == cacheInterval
      ensures cache == None && fetches == 0
    {
      meterId := if meterIdArg.Some? then Some(IdString(meterIdArg.value)) else None;
      this.cacheInterval := cacheInterval;
      cache := None;
      fetches := 0;
    }

    /** `fetch`: one device transaction whose result is `untracked`; the result is passed on unchanged. */
    method Fetch(untracked: Option<Sample>) returns (r: Option<Sample>)
      modifies this`fetches
      ensures r == untracked
      ensures fetches == old(fetches) + 1
    {
      r := untracked;
      fetches := fetches + 1;
    }

    /** `poll`: fetch, then keep and return the sample only if its meter id matches. */
    method Poll(untracked: Option<Sample>) returns (r: Option<Sample>)
      modifies this`cache, this`fetches
      ensures r == PollResult(meterId, untracked)
      ensures cache == CacheAfterPoll(old(cache), meterId, untracked)
      ensures fetches == old(fetches) + 1
    {
      var sample := Fetch(untracked);
      r := None;
      if sample.Some? {
        if MeterIdMatches(meterId, sample.value) {
          cache := sample;
          r := sample;
        }
      }
    }

    /**
     * `retrieve` at time `now`: poll (and so fetch `untracked`) only when the cache needs a
     * refresh, then return whatever the cache holds, an expired sample included.
     */
    method Retrieve(now: int, untracked: Option<Sample>) returns (r: Option<Sample>)
      modifies this`cache, this`fetches
      ensures RetrieveStep(old(cache), meterId, cacheInterval, now, untracked)
              == RetrieveOutcome(cache, fetches == old(fetches) + 1)
      ensures fetches == old(fetches) || fetches == old(fetches) + 1
      ensures r == cache
    {
      if cache.None? || cache.value.time + cacheInterval < now {
        var _ := Poll(untracked);
      }
      r := cache;
    }
  }

  // ---------------------------------------------------------------------------
  // Runs of `retrieve` against a device that answers `device(now)` at time `now`

  datatype RunOutcome = RunOutcome(cache: Option<Sample>, fetches: nat)

  function RunRetrieves(cache: Option<Sample>, expected: Option<string>, cacheInterval: int,
                        times: seq<int>, device: int -> Option<Sample>): RunOutcome
    decreases |times|
  {
    if times == [] then RunOutcome(cache, 0)
    else
      var o := RetrieveStep(cache, expected, cacheInterval, times[0], device(times[0]));
      var rest := RunRetrieves(o.cache, expected, cacheInterval, times[1..], device);
      RunOutcome(rest.cache, rest.fetches + (if o.fetched then 1 else 0))
  }

  /** A device that always answers with a sample stamped with the time of the request. */
  ghost predicate AnswersFresh(device: int -> Option<Sample>, expected: Option<string>) {
    forall t :: device(t).Some? && device(t).value.time == t && MeterIdMatches(expected, device(t).value)
  }

  predicate StrictlyIncreasing(times: seq<int>) {
    forall i, j :: 0 <= i < j < |times| ==> times[i] < times[j]
  }

  /** While the cached sample is still fresh at every requested time, no retrieve fetches. */
  lemma {:induction false} FreshCacheNoFetch(s: Sample, expected: Option<string>, cacheInterval: int,
                                             times: seq<int>, device: int -> Option<Sample>)
    requires forall i :: 0 <= i < |times| ==> times[i] <= s.time + cacheInterval
    ensures RunRetrieves(Some(s), expected, cacheInterval, times, device) == RunOutcome(Some(s), 0)
  {
    if times != [] {
      FreshCacheNoFetch(s, expected, cacheInterval, times[1..], device);
    }
  }

  /**
   * Repeated `retrieve` calls within one cache interval, starting with an empty cache,
   * perform exactly one fetch.
   */
  lemma CacheServesOneInterval(expected: Option<string>, cacheInterval: int, times: seq<int>,
                               device: int -> Option<Sample>)
    requires AnswersFresh(device, expected)
    requires times != []
    requires forall i :: 0 <= i < |times| ==> times[i] <= times[0] + cacheInterval
    ensures RunRetrieves(None, expected, cacheInterval, times, device).fetches == 1
  {
    var s := device(times[0]).value;
    assert RetrieveStep(None, expected, cacheInterval, times[0], device(times[0]))
        == RetrieveOutcome(Some(s), true);
    FreshCacheNoFetch(s, expected, cacheInterval, times[1..], device);
  }

  /** With a zero cache interval and strictly increasing times, every `retrieve` fetches. */
  lemma {:induction false} ZeroIntervalAlwaysFetches(expected: Option<string>, cache: Option<Sample>,
                                                     times: seq<int>, device: int -> Option<Sample>)
    requires AnswersFresh(device, expected)
    requires StrictlyIncreasing(times)
    requires cache.Some? && times != [] ==> cache.value.time < times[0]
    ensures RunRetrieves(cache, expected, 0, times, device).fetches == |times|
    decreases |times|
  {
    if times != [] {
      var o := RetrieveStep(cache, expected, 0, times[0], device(times[0]));
      assert o.fetched && o.cache == device(times[0]);
      ZeroIntervalAlwaysFetches(expected, o.cache, times[1..], device);
    }
  }

  /** The id matches of the reader's tests: spaces, a substring, and a different letter case. */
  lemma MeterIdMatchExamples()
    ensures MeterIdMatches(Some("123"), Sample(0, "1 2 3", []))
    ensures MeterIdMatches(Some("B"), Sample(0, "ABC", []))
    ensures MeterIdMatches(Some("abc"), Sample(0, "ABC", []))
    ensures MeterIdMatches(None, Sample(0, "ABC", []))
  {
    StripSpaced();
    StripFixed("123");
    StripFixed("ABC");
    StripFixed("B");
    StripIgnoresCase("ABC");
    assert LowerAll("ABC") == "abc";
    assert IsPrefix("123", "123");
    assert IsPrefix("ABC", "ABC");
    assert IsPrefix("B", "BC");
    assert IsSubstring("B", "ABC");
  }

  lemma StripFixed(s: string)
    requires forall i :: 0 <= i < |s| ==> IsStripped(s[i])
    ensures Strip(s) == s
  {
    KeepLegalOfLegal(s);
    StripIsUpperOfLegal(s);
  }

  lemma StripSpaced()
    ensures Strip("1 2 3") == "123"
  {
    assert "1 2 3" == "1" + " " + "2" + " " + "3";
    StripAppend("1" + " " + "2" + " ", "3");
    StripAppend("1" + " " + "2", " ");
    StripAppend("1" + " ", "2");
    StripAppend("1", " ");
    StripChar('1'); StripChar(' '); StripChar('2'); StripChar('3');
  }
}
