/**
 * The text codec of the plain (IEC 62056-21) reader: the token pattern
 * `([\d.]+)\(([\d.]+)\*?([\w\d.]+)?\)` scanned as `re.findall` does, and the
 * loop of `PlainReader.__parse` that turns the tokens into a Sample.
 */
module PlainCodec {
  import opened Wrappers
  import opened Common

  /** `[\d.]` */
  predicate IsNumChar(c: char) { IsDigit(c) || c == '.' }

  /** `[\w\d.]` */
  predicate IsUnitChar(c: char) { IsDigit(c) || IsAsciiLetter(c) || c == '_' || c == '.' }

  /** One `findall` match: the three groups; an absent unit is reported as "". */
  datatype Token = Token(code: string, value: string, unit: string)

  /** The two character classes of the pattern. */
  datatype CharClass = NumClass | UnitClass

  predicate InClass(cls: CharClass, c: char) {
    match cls
    case NumClass => IsNumChar(c)
    case UnitClass => IsUnitChar(c)
  }

  /** All characters of `s[i..j]` are in class `cls`. */
  ghost predicate AllIn(s: string, i: int, j: int, cls: CharClass)
    requires 0 <= i <= j <= |s|
  {
    forall k :: i <= k < j ==> InClass(cls, s[k])
  }

  /** Length of the longest run of characters in class `cls` that starts at `i`. */
  function Run(s: string, i: nat, cls: CharClass): (n: nat)
    requires i <= |s|
    ensures i + n <= |s|
    decreases |s| - i
  {
    if i == |s| || !InClass(cls, s[i]) then 0 else 1 + Run(s, i + 1, cls)
  }

  /** The run is made of characters in class `cls` and stops at the end or at one that does not. */
  lemma {:induction false} RunSpec(s: string, i: nat, cls: CharClass)
    requires i <= |s|
    ensures AllIn(s, i, i + Run(s, i, cls), cls)
    ensures i + Run(s, i, cls) == |s| || !InClass(cls, s[i + Run(s, i, cls)])
    decreases |s| - i
  {
    if i < |s| && InClass(cls, s[i]) {
      RunSpec(s, i + 1, cls);
    }
  }

  /** The deterministic scan of one token starting exactly at `i`: the token and the position after `)`. */
  function MatchAt(s: string, i: nat): Option<(Token, nat)>
    requires i <= |s|
  {
    var a := i + Run(s, i, NumClass);
    if a == i || a == |s| || s[a] != '(' then None else MatchValue(s, i, a)
  }

  /** The scan after the code group `s[i..a]` and the `(` at `a`. */
  function MatchValue(s: string, i: nat, a: nat): Option<(Token, nat)>
    requires i <= a < |s|
  {
    var b := a + 1 + Run(s, a + 1, NumClass);
    if b == a + 1 then None else MatchUnit(s, i, a, b)
  }

  /** The scan after the value group `s[a+1..b]`: an optional `*`, the unit group and `)`. */
  function MatchUnit(s: string, i: nat, a: nat, b: nat): Option<(Token, nat)>
    requires i <= a < b <= |s|
  {
    var m := if b < |s| && s[b] == '*' then b + 1 else b;
    var e := m + Run(s, m, UnitClass);
    if e < |s| && s[e] == ')' then Some((Token(s[i..a], s[a + 1..b], s[m..e]), e + 1)) else None
  }

  /** `re.findall` from position `i`: on a match continue after it, otherwise move one character on. */
  function TokensFrom(s: string, i: nat): seq<Token>
    requires i <= |s|
    decreases |s| - i
  {
    if i == |s| then []
    else
      match MatchAt(s, i)
      case Some((t, e)) => if e <= |s| && i < e then [t] + TokensFrom(s, e) else []
      case None => TokensFrom(s, i + 1)
  }

  function Findall(s: string): seq<Token> {
    TokensFrom(s, 0)
  }

  // ---------------------------------------------------------------------------
  // The pattern itself, and why the scan needs no backtracking

  /**
   * `s[i..e+1]` matches the pattern with the code group `s[i..a]`, `(` at `a`, the value group
   * `s[a+1..b]`, an optional `*` in `s[b..m]`, the unit group `s[m..e]` and `)` at `e`.
   */
  ghost predicate PatternAt(s: string, i: nat, a: nat, b: nat, m: nat, e: nat) {
    && i < a < b <= m <= e < |s|
    && s[a] == '(' && a + 1 < b && s[e] == ')'
    && (m == b || (m == b + 1 && s[b] == '*'))
    && AllIn(s, i, a, NumClass) && AllIn(s, a + 1, b, NumClass) && AllIn(s, m, e, UnitClass)
  }

  /** Every token the scan reports is a match of the pattern, with the groups it reports. */
  lemma MatchAtSound(s: string, i: nat) returns (a: nat, b: nat, m: nat, e: nat)
    requires i <= |s| && MatchAt(s, i).Some?
    ensures PatternAt(s, i, a, b, m, e)
    ensures MatchAt(s, i) == Some((Token(s[i..a], s[a + 1..b], s[m..e]), e + 1))
  {
    a, b, m, e := MatchAtPositions(s, i);
    RunSpec(s, i, NumClass);
    RunSpec(s, a + 1, NumClass);
    RunSpec(s, m, UnitClass);
  }

  /** Where the three runs of a successful scan start and stop. */
  lemma MatchAtPositions(s: string, i: nat) returns (a: nat, b: nat, m: nat, e: nat)
    requires i <= |s| && MatchAt(s, i).Some?
    ensures a == i + Run(s, i, NumClass) && i < a < |s| && s[a] == '('
    ensures b == a + 1 + Run(s, a + 1, NumClass) && a + 1 < b
    ensures m == (if b < |s| && s[b] == '*' then b + 1 else b)
    ensures e == m + Run(s, m, UnitClass) && e < |s| && s[e] == ')'
    ensures MatchAt(s, i) == Some((Token(s[i..a], s[a + 1..b], s[m..e]), e + 1))
  {
    a := i + Run(s, i, NumClass);
    b := a + 1 + Run(s, a + 1, NumClass);
    m := if b < |s| && s[b] == '*' then b + 1 else b;
    e := m + Run(s, m, UnitClass);
  }

  /**
   * Wherever the pattern matches at `i` in any way, the scan matches at `i`, ends at the same `)`,
   * and reports the groups a backtracking matcher picks first: the code group, the longest value
   * group, and the rest up to `)` as the unit.
   */
  lemma MatchAtComplete(s: string, i: nat, a: nat, b: nat, m: nat, e: nat)
    requires PatternAt(s, i, a, b, m, e)
    ensures MatchAt(s, i).Some?
    ensures MatchAt(s, i).value.1 == e + 1
    ensures MatchAt(s, i).value.0.code == s[i..a]
    ensures m == b + 1 ==> MatchAt(s, i).value.0 == Token(s[i..a], s[a + 1..b], s[m..e])
  {
    RunEnd(s, i, a, NumClass);
    var b' := a + 1 + Run(s, a + 1, NumClass);
    RunAtLeast(s, a + 1, b, NumClass);
    RunSpec(s, a + 1, NumClass);
    if m == b + 1 {
      RunEnd(s, a + 1, b, NumClass);
      RunEnd(s, m, e, UnitClass);
      MatchAtSteps(s, i, a, b, m, e);
    } else {
      assert b' <= e;
      assert b' == |s| || s[b'] != '*' by {
        if b' < e {
          assert IsUnitChar(s[b']);
        }
      }
      assert AllIn(s, b', e, UnitClass);
      RunEnd(s, b', e, UnitClass);
      MatchAtSteps(s, i, a, b', b', e);
    }
  }

  /** `MatchAt` once the three runs are known. */
  lemma MatchAtSteps(s: string, i: nat, a: nat, b: nat, m: nat, e: nat)
    requires i < a < |s| && s[a] == '(' && Run(s, i, NumClass) == a - i
    requires a + 1 < b <= |s| && Run(s, a + 1, NumClass) == b - a - 1
    requires m == (if b < |s| && s[b] == '*' then b + 1 else b)
    requires m <= e < |s| && Run(s, m, UnitClass) == e - m && s[e] == ')'
    ensures MatchAt(s, i) == Some((Token(s[i..a], s[a + 1..b], s[m..e]), e + 1))
  {
    assert MatchAt(s, i) == MatchValue(s, i, a);
    assert MatchValue(s, i, a) == MatchUnit(s, i, a, b);
  }

  /** A run that covers exactly `s[i..j]` and is stopped at `j` has length `j - i`. */
  lemma {:induction false} RunEnd(s: string, i: nat, j: nat, cls: CharClass)
    requires i <= j <= |s| && AllIn(s, i, j, cls) && (j == |s| || !InClass(cls, s[j]))
    ensures Run(s, i, cls) == j - i
    decreases j - i
  {
    if i < j {
      RunEnd(s, i + 1, j, cls);
    }
  }

  /** A run reaches at least as far as any stretch of matching characters. */
  lemma {:induction false} RunAtLeast(s: string, i: nat, j: nat, cls: CharClass)
    requires i <= j <= |s| && AllIn(s, i, j, cls)
    ensures i + Run(s, i, cls) >= j
    decreases j - i
  {
    if i < j {
      RunAtLeast(s, i + 1, j, cls);
    }
  }

  // ---------------------------------------------------------------------------
  // float() on a run of digits and dots

  function Pow10(n: nat): (p: nat)
    ensures p >= 1
  {
    if n == 0 then 1 else 10 * Pow10(n - 1)
  }

  function DotCount(v: string): nat {
    if v == [] then 0 else (if v[0] == '.' then 1 else 0) + DotCount(v[1..])
  }

  function FirstDot(v: string): (k: nat)
    requires DotCount(v) > 0
    ensures k < |v| && v[k] == '.'
  {
    if v[0] == '.' then 0 else 1 + FirstDot(v[1..])
  }

  /** No dot comes before the first one. */
  lemma {:induction false} FirstDotFirst(v: string)
    requires DotCount(v) > 0
    ensures '.' !in v[..FirstDot(v)]
  {
    if v[0] != '.' {
      FirstDotFirst(v[1..]);
      assert v[..FirstDot(v)] == [v[0]] + v[1..][..FirstDot(v[1..])];
    }
  }

  /** `n` shifted right by `digits` decimal places. */
  function Scaled(n: nat, digits: nat): (r: real)
    ensures r >= 0.0
  {
    var p := Pow10(digits) as real;
    assert (n as real) / p >= 0.0 by {
      assert p > 0.0;
    }
    (n as real) / p
  }

  predicate HasDigit(v: string) {
    exists k :: 0 <= k < |v| && IsDigit(v[k])
  }

  /** Digits and dots without a dot are all digits. */
  lemma NoDotDigits(v: string)
    requires forall k :: 0 <= k < |v| ==> IsNumChar(v[k])
    requires '.' !in v
    ensures AllDigits(v)
  {
    forall j | 0 <= j < |v| ensures IsDigit(v[j]) { assert v[j] in v; }
  }

  /**
   * `float(v)` for a string of digits and dots: the exact decimal value, or None where Python
   * raises ValueError.
   */
  function DecimalValue(v: string): Option<real>
    requires forall k :: 0 <= k < |v| ==> IsNumChar(v[k])
  {
    if DotCount(v) == 0 then
      DotCountNoDot(v);
      NoDotDigits(v);
      if v == [] then None else Some(DigitsValue(v) as real)
    else
      var k := FirstDot(v);
      var whole, frac := v[..k], v[k + 1..];
      if DotCount(frac) != 0 || (whole == [] && frac == []) then None
      else
        FirstDotFirst(v);
        DotCountNoDot(frac);
        NoDotDigits(whole);
        NoDotDigits(frac);
        Some(DigitsValue(whole) as real + Scaled(DigitsValue(frac), |frac|))
  }

  /**
   * `float()` accepts the string exactly when it has at most one dot and at least one digit,
   * and then its value is not negative.
   */
  lemma DecimalValueDefined(v: string)
    requires forall k :: 0 <= k < |v| ==> IsNumChar(v[k])
    ensures DecimalValue(v).Some? <==> DotCount(v) <= 1 && HasDigit(v)
    ensures DecimalValue(v).Some? ==> DecimalValue(v).value >= 0.0
  {
    if DotCount(v) == 0 {
      DotCountNoDot(v);
      NoDotDigits(v);
      DigitsHaveDigit(v);
    } else {
      var k := FirstDot(v);
      DotCountSplit(v, k);
      DecimalAtFirstDot(v, k, v[..k], v[k + 1..]);
    }
  }

  lemma DecimalAtFirstDot(v: string, k: nat, whole: string, frac: string)
    requires forall j :: 0 <= j < |v| ==> IsNumChar(v[j])
    requires DotCount(v) > 0 && k == FirstDot(v) && whole == v[..k] && frac == v[k + 1..]
    requires DotCount(v) == 1 + DotCount(frac)
    ensures DecimalValue(v).Some? <==> DotCount(frac) == 0 && HasDigit(v)
  {
    if DotCount(frac) == 0 {
      FirstDotFirst(v);
      DotCountNoDot(frac);
      SliceNumChars(v, 0, k);
      SliceNumChars(v, k + 1, |v|);
      NoDotDigits(whole);
      NoDotDigits(frac);
      DigitsHaveDigit(whole);
      DigitsHaveDigit(frac);
      HasDigitSplit(v, k);
    }
  }

  lemma SliceNumChars(v: string, i: nat, j: nat)
    requires i <= j <= |v| && forall k :: 0 <= k < |v| ==> IsNumChar(v[k])
    ensures forall k :: 0 <= k < |v[i..j]| ==> IsNumChar(v[i..j][k])
  {
  }

  /** A string of digits has a digit exactly when it is not empty. */
  lemma DigitsHaveDigit(v: string)
    requires AllDigits(v)
    ensures HasDigit(v) <==> v != []
  {
    if v != [] {
      assert IsDigit(v[0]);
    }
  }

  /** Around a dot, a digit is on one side or the other. */
  lemma HasDigitSplit(v: string, k: nat)
    requires k < |v| && v[k] == '.'
    ensures HasDigit(v) <==> HasDigit(v[..k]) || HasDigit(v[k + 1..])
  {
    if HasDigit(v) {
      var j :| 0 <= j < |v| && IsDigit(v[j]);
      if j < k {
        assert v[..k][j] == v[j];
      } else {
        assert v[k + 1..][j - k - 1] == v[j];
      }
    }
    if HasDigit(v[k + 1..]) {
      var j :| 0 <= j < |v[k + 1..]| && IsDigit(v[k + 1..][j]);
      assert v[k + 1 + j] == v[k + 1..][j];
    }
    if HasDigit(v[..k]) {
      var j :| 0 <= j < k && IsDigit(v[..k][j]);
      assert v[j] == v[..k][j];
    }
  }

  lemma {:induction false} DotCountNoDot(v: string)
    ensures DotCount(v) == 0 <==> '.' !in v
  {
    if v != [] {
      DotCountNoDot(v[1..]);
      assert v == [v[0]] + v[1..];
    }
  }

  lemma {:induction false} DotCountSplit(v: string, k: nat)
    requires DotCount(v) > 0 && k == FirstDot(v)
    ensures DotCount(v) == 1 + DotCount(v[k + 1..])
  {
    if v[0] != '.' {
      DotCountSplit(v[1..], k - 1);
      assert v[1..][k..] == v[k + 1..];
    }
  }

  // ---------------------------------------------------------------------------
  // __parse

  /** The identification token: code `9.21` without a unit. */
  predicate IsIdToken(t: Token) { t.unit == "" && t.code == "9.21" }

  /** A token that becomes a channel and whose value `float()` accepts. */
  ghost predicate ValidChannelToken(t: Token) {
    !IsIdToken(t) ==> (forall k :: 0 <= k < |t.value| ==> IsNumChar(t.value[k])) && DecimalValue(t.value).Some?
  }

  /** The value of the last identification token, if any. */
  function LastId(tokens: seq<Token>): Option<string> {
    if tokens == [] then None
    else if IsIdToken(tokens[|tokens| - 1]) then Some(tokens[|tokens| - 1].value)
    else LastId(tokens[..|tokens| - 1])
  }

  /** The channels of the non-identification tokens, in order: `(code, float(value), unit)`. */
  ghost function ChannelsOf(tokens: seq<Token>): seq<ChannelValue>
    requires forall j :: 0 <= j < |tokens| ==> ValidChannelToken(tokens[j])
  {
    if tokens == [] then []
    else
      var t := tokens[|tokens| - 1];
      assert ValidChannelToken(t);
      ChannelsOf(tokens[..|tokens| - 1])
      + (if IsIdToken(t) then [] else [ChannelValue(t.code, Float(DecimalValue(t.value).value), Some(t.unit))])
  }

  /** Why parsing raised: `float()` rejected a channel value. */
  datatype ParseError = ValueError(value: string)

  /** Every token `Findall` reports has digit-and-dot code and value groups. */
  lemma {:induction false} TokensWellFormed(s: string, i: nat)
    requires i <= |s|
    ensures forall j :: 0 <= j < |TokensFrom(s, i)| ==>
      (forall k :: 0 <= k < |TokensFrom(s, i)[j].value| ==> IsNumChar(TokensFrom(s, i)[j].value[k]))
    decreases |s| - i
  {
    if i < |s| {
      match MatchAt(s, i)
      case Some((t, e)) =>
        if e <= |s| && i < e {
          var a, b, m, e' := MatchAtSound(s, i);
          TokensWellFormed(s, e);
        }
      case None =>
        TokensWellFormed(s, i + 1);
    }
  }

  /**
   * What `PlainReader.__parse` promises for the token list of a response: the first bad
   * channel value raises ValueError; None exactly when no token matches; otherwise the last
   * `9.21` token sets the meter id and every other token becomes a channel, in order.
   */
  ghost predicate ParsedAs(tokens: seq<Token>, now: int, r: Result<Option<Sample>, ParseError>) {
    && (r.Err? <==> exists j :: 0 <= j < |tokens| && !ValidChannelToken(tokens[j]))
    && (r.Ok? ==> (r.value.None? <==> tokens == []))
    && (r.Ok? && r.value.Some? ==>
          r.value.value == Sample(now, LastId(tokens).GetOr(""), ChannelsOf(tokens)))
  }

  /** One more token: the last id and the channels of the longer prefix. */
  lemma ParseStep(tokens: seq<Token>, i: nat)
    requires i < |tokens|
    ensures var t := tokens[i];
      LastId(tokens[..i + 1]) == if IsIdToken(t) then Some(t.value) else LastId(tokens[..i])
    ensures var t := tokens[i];
      (forall j :: 0 <= j <= i ==> ValidChannelToken(tokens[j])) ==>
      ChannelsOf(tokens[..i + 1])
      == ChannelsOf(tokens[..i]) + (if IsIdToken(t) then [] else [ChannelValue(t.code, Float(DecimalValue(t.value).value), Some(t.unit))])
  {
    assert tokens[..i + 1][..i] == tokens[..i];
  }

  /** `PlainReader.__parse(response)`; `now` is the creation time of the Sample. */
  method Parse(response: string, now: int) returns (r: Result<Option<Sample>, ParseError>)
    ensures ParsedAs(Findall(response), now, r)
  {
    var tokens := Findall(response);
    TokensWellFormed(response, 0);
    var parsed: Option<Sample> := None;
    var i := 0;
    while i < |tokens|
      invariant 0 <= i <= |tokens|
      invariant forall j :: 0 <= j < i ==> ValidChannelToken(tokens[j])
      invariant parsed.None? <==> i == 0
      invariant parsed.Some? ==>
        parsed.value == Sample(now, LastId(tokens[..i]).GetOr(""), ChannelsOf(tokens[..i]))
    {
      var t := tokens[i];
      if parsed.None? {
        parsed := Some(NewSample(now));
      }
      ParseStep(tokens, i);
      if t.unit == "" && t.code == "9.21" {
        parsed := Some(parsed.value.(meterId := t.value));
      } else {
        var f := DecimalValue(t.value);
        if f.None? {
          assert !ValidChannelToken(tokens[i]);
          return Err(ValueError(t.value));
        }
        parsed := Some(parsed.value.(channels := parsed.value.channels + [ChannelValue(t.code, Float(f.value), Some(t.unit))]));
      }
      i := i + 1;
    }
    assert tokens[..i] == tokens;
    r := Ok(parsed);
  }

  /** The readout of the reader's own test: two channels and the meter id 99999999. */
  const ExampleResponse: string := "\U{02}" + "6.8(0006047*kWh)" + "6.26(00428.35*m3)" + "9.21(99999999)" + "\r\n"

  lemma ExampleTokens()
    ensures Findall(ExampleResponse) == [Token("6.8", "0006047", "kWh"), Token("6.26", "00428.35", "m3"),
                                         Token("9.21", "99999999", "")]
  {
    var s := ExampleResponse;
    ExampleToken1();
    ExampleToken2();
    ExampleToken3();
    ExampleEnds();
    assert TokensFrom(s, 34) == [Token("9.21", "99999999", "")] + TokensFrom(s, 48);
    assert TokensFrom(s, 17) == [Token("6.26", "00428.35", "m3")] + TokensFrom(s, 34);
    assert TokensFrom(s, 1) == [Token("6.8", "0006047", "kWh")] + TokensFrom(s, 17);
    assert TokensFrom(s, 0) == TokensFrom(s, 1);
  }

  /** The readout of the test parses into the meter id 99999999 and two channels in kWh and m3. */
  lemma ExampleParse()
    ensures forall j :: 0 <= j < |Findall(ExampleResponse)| ==> ValidChannelToken(Findall(ExampleResponse)[j])
    ensures LastId(Findall(ExampleResponse)) == Some("99999999")
    ensures ChannelsOf(Findall(ExampleResponse))
         == [ChannelValue("6.8", Float(6047.0), Some("kWh")), ChannelValue("6.26", Float(428.35), Some("m3"))]
  {
    ExampleTokens();
    ExampleChannels();
  }

  lemma ExampleChannels()
    ensures var ts := [Token("6.8", "0006047", "kWh"), Token("6.26", "00428.35", "m3"), Token("9.21", "99999999", "")];
      && (forall j :: 0 <= j < |ts| ==> ValidChannelToken(ts[j]))
      && LastId(ts) == Some("99999999")
      && ChannelsOf(ts)
         == [ChannelValue("6.8", Float(6047.0), Some("kWh")), ChannelValue("6.26", Float(428.35), Some("m3"))]
  {
    ExampleValid();
    TwoChannelsThenId(Token("6.8", "0006047", "kWh"), Token("6.26", "00428.35", "m3"), Token("9.21", "99999999", ""));
  }

  /** Two channel tokens and then the identification token. */
  lemma TwoChannelsThenId(t1: Token, t2: Token, t3: Token)
    requires !IsIdToken(t1) && !IsIdToken(t2) && IsIdToken(t3)
    requires ValidChannelToken(t1) && ValidChannelToken(t2)
    ensures forall j :: 0 <= j < |[t1, t2, t3]| ==> ValidChannelToken([t1, t2, t3][j])
    ensures LastId([t1, t2, t3]) == Some(t3.value)
    ensures ChannelsOf([t1, t2, t3])
         == [ChannelValue(t1.code, Float(DecimalValue(t1.value).value), Some(t1.unit)),
             ChannelValue(t2.code, Float(DecimalValue(t2.value).value), Some(t2.unit))]
  {
    ChannelsOfTwo(t1, t2);
    ChannelsOfSnoc([t1, t2], t3);
    assert [t1, t2] + [t3] == [t1, t2, t3];
  }

  lemma ChannelsOfTwo(t1: Token, t2: Token)
    requires !IsIdToken(t1) && !IsIdToken(t2)
    requires ValidChannelToken(t1) && ValidChannelToken(t2)
    ensures forall j :: 0 <= j < |[t1, t2]| ==> ValidChannelToken([t1, t2][j])
    ensures ChannelsOf([t1, t2])
         == [ChannelValue(t1.code, Float(DecimalValue(t1.value).value), Some(t1.unit)),
             ChannelValue(t2.code, Float(DecimalValue(t2.value).value), Some(t2.unit))]
  {
    ChannelsOfOne(t1);
    ChannelsOfSnoc([t1], t2);
    assert [t1] + [t2] == [t1, t2];
  }

  lemma ChannelsOfOne(t1: Token)
    requires !IsIdToken(t1) && ValidChannelToken(t1)
    ensures forall j :: 0 <= j < |[t1]| ==> ValidChannelToken([t1][j])
    ensures ChannelsOf([t1]) == [ChannelValue(t1.code, Float(DecimalValue(t1.value).value), Some(t1.unit))]
  {
    ChannelsOfSnoc([], t1);
    assert [] + [t1] == [t1];
  }

  /** Appending a token appends its channel, unless it is the identification token. */
  lemma ChannelsOfSnoc(ts: seq<Token>, t: Token)
    requires forall j :: 0 <= j < |ts| ==> ValidChannelToken(ts[j])
    requires ValidChannelToken(t)
    ensures forall j :: 0 <= j < |ts + [t]| ==> ValidChannelToken((ts + [t])[j])
    ensures ChannelsOf(ts + [t])
         == ChannelsOf(ts) + (if IsIdToken(t) then [] else [ChannelValue(t.code, Float(DecimalValue(t.value).value), Some(t.unit))])
  {
    assert (ts + [t])[..|ts|] == ts;
  }

  lemma ExampleValid()
    ensures ValidChannelToken(Token("6.8", "0006047", "kWh")) && ValidChannelToken(Token("6.26", "00428.35", "m3"))
    ensures IsIdToken(Token("9.21", "99999999", "")) && ValidChannelToken(Token("9.21", "99999999", ""))
    ensures DecimalValue("0006047") == Some(6047.0) && DecimalValue("00428.35") == Some(428.35)
  {
    Value6047();
    Value42835();
  }

  lemma Value6047()
    ensures forall k :: 0 <= k < 7 ==> IsNumChar("0006047"[k])
    ensures DecimalValue("0006047") == Some(6047.0)
  {
    Digits6047();
    assert DotCount("0006047") == 0;
  }

  lemma Value42835()
    ensures forall k :: 0 <= k < 8 ==> IsNumChar("00428.35"[k])
    ensures DecimalValue("00428.35") == Some(428.35)
  {
    Digits428();
    Digits35();
    DecimalOfParts("00428", "35");
    assert "00428" + ['.'] + "35" == "00428.35";
    assert Pow10(2) == 100;
    assert Scaled(35, 2) == 0.35;
  }

  /** `float(w + "." + f)` for digit strings `w` (non-empty) and `f`: the whole part plus the scaled fraction. */
  lemma DecimalOfParts(w: string, f: string)
    requires w != [] && AllDigits(w) && AllDigits(f)
    ensures forall k :: 0 <= k < |w + ['.'] + f| ==> IsNumChar((w + ['.'] + f)[k])
    ensures DecimalValue(w + ['.'] + f) == Some(DigitsValue(w) as real + Scaled(DigitsValue(f), |f|))
  {
    var v := w + ['.'] + f;
    PartsNumChars(w, f);
    FirstDotAfter(w, f);
    DotCountNoDot(f);
    assert v[..|w|] == w && v[|w| + 1..] == f;
    DecimalAtDot(v, |w|, w, f);
  }

  lemma DecimalAtDot(v: string, k: nat, w: string, f: string)
    requires forall j :: 0 <= j < |v| ==> IsNumChar(v[j])
    requires DotCount(v) > 0 && FirstDot(v) == k && v[..k] == w && v[k + 1..] == f
    requires w != [] && AllDigits(w) && AllDigits(f) && DotCount(f) == 0
    ensures DecimalValue(v) == Some(DigitsValue(w) as real + Scaled(DigitsValue(f), |f|))
  {
  }

  lemma PartsNumChars(w: string, f: string)
    requires AllDigits(w) && AllDigits(f)
    ensures forall k :: 0 <= k < |w + ['.'] + f| ==> IsNumChar((w + ['.'] + f)[k])
    ensures '.' !in w && '.' !in f
  {
    var v := w + ['.'] + f;
    forall k | 0 <= k < |v| ensures IsNumChar(v[k]) {
      if k < |w| { assert v[k] == w[k]; }
      else if k > |w| { assert v[k] == f[k - |w| - 1]; }
    }
    assert '.' !in w by {
      forall k | 0 <= k < |w| ensures w[k] != '.' { assert IsDigit(w[k]); }
    }
    assert '.' !in f by {
      forall k | 0 <= k < |f| ensures f[k] != '.' { assert IsDigit(f[k]); }
    }
  }

  lemma {:induction false} FirstDotAfter(w: string, rest: string)
    requires '.' !in w
    ensures DotCount(w + ['.'] + rest) > 0 && FirstDot(w + ['.'] + rest) == |w|
  {
    if w != [] {
      FirstDotAfter(w[1..], rest);
      assert (w + ['.'] + rest)[1..] == w[1..] + ['.'] + rest;
    }
  }

  lemma Digits6047()
    ensures AllDigits("0006047") && DigitsValue("0006047") == 6047
  {
    DigitsValueSnoc("", '0');
    assert "" + ['0'] == "0";
    DigitsValueSnoc("0", '0');
    assert "0" + ['0'] == "00";
    DigitsValueSnoc("00", '0');
    assert "00" + ['0'] == "000";
    DigitsValueSnoc("000", '6');
    assert "000" + ['6'] == "0006";
    DigitsValueSnoc("0006", '0');
    assert "0006" + ['0'] == "00060";
    DigitsValueSnoc("00060", '4');
    assert "00060" + ['4'] == "000604";
    DigitsValueSnoc("000604", '7');
    assert "000604" + ['7'] == "0006047";
  }

  lemma Digits428()
    ensures AllDigits("00428") && DigitsValue("00428") == 428
  {
    DigitsValueSnoc("", '0');
    assert "" + ['0'] == "0";
    DigitsValueSnoc("0", '0');
    assert "0" + ['0'] == "00";
    DigitsValueSnoc("00", '4');
    assert "00" + ['4'] == "004";
    DigitsValueSnoc("004", '2');
    assert "004" + ['2'] == "0042";
    DigitsValueSnoc("0042", '8');
    assert "0042" + ['8'] == "00428";
  }

  lemma Digits35()
    ensures AllDigits("35") && DigitsValue("35") == 35
  {
    DigitsValueSnoc("", '3');
    assert "" + ['3'] == "3";
    DigitsValueSnoc("3", '5');
    assert "3" + ['5'] == "35";
  }

  lemma DigitsValueSnoc(s: string, c: char)
    requires AllDigits(s) && IsDigit(c)
    ensures AllDigits(s + [c])
    ensures DigitsValue(s + [c]) == DigitsValue(s) * 10 + DigitValue(c)
  {
    assert (s + [c])[..|s|] == s;
  }

  /** Nothing matches at the leading STX nor in the trailing CR LF. */
  lemma ExampleEnds()
    ensures |ExampleResponse| == 50
    ensures MatchAt(ExampleResponse, 0) == None
    ensures TokensFrom(ExampleResponse, 48) == []
  {
    var s := ExampleResponse;
    assert !IsNumChar(s[0]) && !IsNumChar(s[48]) && !IsNumChar(s[49]);
    assert MatchAt(s, 49) == None;
    assert MatchAt(s, 48) == None;
    assert TokensFrom(s, 50) == [];
    assert TokensFrom(s, 49) == TokensFrom(s, 50);
    assert TokensFrom(s, 48) == TokensFrom(s, 49);
  }

  lemma ExampleToken1()
    ensures MatchAt(ExampleResponse, 1) == Some((Token("6.8", "0006047", "kWh"), 17))
  {
    var w1, w2, w3, tail := "6.8(0006047*kWh)", "6.26(00428.35*m3)", "9.21(99999999)", "\r\n";
    assert ExampleResponse == Layout("\U{02}", "6.8", "0006047", "*", "kWh", w2 + w3 + tail);
    assert AllIn("6.8", 0, 3, NumClass) && AllIn("0006047", 0, 7, NumClass);
    assert AllIn("kWh", 0, 3, UnitClass);
    PieceLayout("\U{02}", "6.8", "0006047", "*", "kWh", w2 + w3 + tail);
    MatchPiece(ExampleResponse, 1, 4, 12, 13, 16, "6.8", "0006047", "*", "kWh");
  }

  lemma ExampleToken2()
    ensures MatchAt(ExampleResponse, 17) == Some((Token("6.26", "00428.35", "m3"), 34))
  {
    var w1, w2, w3, tail := "6.8(0006047*kWh)", "6.26(00428.35*m3)", "9.21(99999999)", "\r\n";
    assert ExampleResponse == Layout("\U{02}" + w1, "6.26", "00428.35", "*", "m3", w3 + tail);
    assert AllIn("6.26", 0, 4, NumClass) && AllIn("00428.35", 0, 8, NumClass);
    assert AllIn("m3", 0, 2, UnitClass);
    PieceLayout("\U{02}" + w1, "6.26", "00428.35", "*", "m3", w3 + tail);
    MatchPiece(ExampleResponse, 17, 21, 30, 31, 33, "6.26", "00428.35", "*", "m3");
  }

  lemma ExampleToken3()
    ensures MatchAt(ExampleResponse, 34) == Some((Token("9.21", "99999999", ""), 48))
  {
    var w1, w2, w3, tail := "6.8(0006047*kWh)", "6.26(00428.35*m3)", "9.21(99999999)", "\r\n";
    assert ExampleResponse == Layout("\U{02}" + w1 + w2, "9.21", "99999999", "", "", tail);
    assert AllIn("9.21", 0, 4, NumClass) && AllIn("99999999", 0, 8, NumClass);
    assert AllIn("", 0, 0, UnitClass);
    PieceLayout("\U{02}" + w1 + w2, "9.21", "99999999", "", "", tail);
    MatchPiece(ExampleResponse, 34, 38, 47, 47, 47, "9.21", "99999999", "", "");
  }

  /** The text `x`, then one token `code(value<star>unit)`, then `y`. */
  function Layout(x: string, code: string, value: string, star: string, unit: string, y: string): string {
    x + (code + ("(" + (value + (star + (unit + (")" + y))))))
  }

  /**
   * The scan of one complete token `code(value<star>unit)` sitting at position `i` of `s`, with
   * `(` at `a`, the optional star at `b`, the unit from `m` and `)` at `e`.
   */
  lemma MatchPiece(s: string, i: nat, a: nat, b: nat, m: nat, e: nat,
                   code: string, value: string, star: string, unit: string)
    requires a == i + |code| && b == a + 1 + |value| && m == b + |star| && e == m + |unit| && e < |s|
    requires code != [] && value != [] && (star == "" || star == "*") && (star == "" ==> unit == "")
    requires AllIn(code, 0, |code|, NumClass) && AllIn(value, 0, |value|, NumClass)
    requires AllIn(unit, 0, |unit|, UnitClass)
    requires s[i..a] == code && s[a] == '(' && s[a + 1..b] == value && s[m..e] == unit && s[e] == ')'
    requires star == "*" ==> s[b] == '*'
    ensures MatchAt(s, i) == Some((Token(code, value, unit), e + 1))
  {
    RunOfGroup(s, i, a, code, NumClass);
    RunOfGroup(s, a + 1, b, value, NumClass);
    RunOfGroup(s, m, e, unit, UnitClass);
    assert m == (if b < |s| && s[b] == '*' then b + 1 else b);
    MatchAtSteps(s, i, a, b, m, e);
  }

  lemma RunOfGroup(s: string, i: nat, j: nat, w: string, cls: CharClass)
    requires i <= j < |s| && s[i..j] == w && AllIn(w, 0, |w|, cls) && !InClass(cls, s[j])
    ensures Run(s, i, cls) == j - i
  {
    AllInSlice(s, i, j, w, cls);
    RunEnd(s, i, j, cls);
  }

  lemma PieceLayout(x: string, code: string, value: string, star: string, unit: string, y: string)
    ensures |x| + |code| + 1 + |value| + |star| + |unit| < |Layout(x, code, value, star, unit, y)|
    ensures Layout(x, code, value, star, unit, y)[|x| + |code|] == '('
    ensures Layout(x, code, value, star, unit, y)[|x| + |code| + 1 + |value| + |star| + |unit|] == ')'
    ensures star == "*" ==> Layout(x, code, value, star, unit, y)[|x| + |code| + 1 + |value|] == '*'
    ensures Layout(x, code, value, star, unit, y)[|x|..|x| + |code|] == code
    ensures Layout(x, code, value, star, unit, y)[|x| + |code| + 1..|x| + |code| + 1 + |value|] == value
    ensures Layout(x, code, value, star, unit, y)[|x| + |code| + 1 + |value| + |star|..|x| + |code| + 1 + |value| + |star| + |unit|] == unit
  {
  }

  lemma AllInSlice(s: string, i: nat, j: nat, w: string, cls: CharClass)
    requires i <= j <= |s| && s[i..j] == w && AllIn(w, 0, |w|, cls)
    ensures AllIn(s, i, j, cls)
  {
    forall k | i <= k < j
      ensures InClass(cls, s[k])
    {
      assert s[k] == w[k - i];
    }
  }
}
