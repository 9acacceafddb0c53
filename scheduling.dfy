/**
 * Scheduling arithmetic shared by both reader nodes: the greatest common divisor of the
 * channel intervals, computed by pairwise reduction, which the node is polled at, and
 * the cast of a channel value to a number scaled by the channel's factor.
 */
module Scheduling {
  import opened Wrappers
  import opened Common
  import PlainCodec

  // ---------------------------------------------------------------------------
  // Divisibility

  /** `d` divides `n`; zero divides only zero. */
  predicate Divides(d: nat, n: nat) {
    if d == 0 then n == 0 else n % d == 0
  }

  lemma MulMod(d: int, m: int)
    requires d > 0
    ensures (d * m) % d == 0
  {
    var q, r := (d * m) / d, (d * m) % d;
    assert d * (m - q) == r;
    MulBounds(d, m - q);
  }

  /** A combination of two multiples of `d` is a multiple of `d`. */
  lemma Combination(d: int, x: int, y: int, q: int)
    requires d > 0 && x % d == 0 && y % d == 0
    ensures (x + q * y) % d == 0
  {
    var a, b := x / d, y / d;
    assert x + q * y == d * (a + q * b) by {
      assert x == d * a && y == d * b;
      assert q * (d * b) == d * (q * b);
    }
    MulMod(d, a + q * b);
  }

  lemma DividesTrans(d: nat, h: nat, n: nat)
    requires d > 0 && Divides(d, h) && Divides(h, n)
    ensures Divides(d, n)
  {
    if h > 0 {
      var k := n / h;
      assert n == h * k;
      Combination(d, 0, h, k);
    }
  }

  /** `hcf_naive`: Euclid's algorithm. */
  function Hcf(a: nat, b: nat): (r: nat)
    ensures b == 0 ==> r == a
    ensures r == 0 <==> a == 0 && b == 0
    decreases b
  {
    if b == 0 then a else Hcf(b, a % b)
  }

  /** The result divides both arguments. */
  lemma {:induction false} HcfDivides(a: nat, b: nat)
    ensures Divides(Hcf(a, b), a) && Divides(Hcf(a, b), b)
    decreases b
  {
    if b == 0 {
      if a > 0 {
        MulMod(a, 1);
        MulMod(a, 0);
      }
    } else {
      HcfDivides(b, a % b);
      var h := Hcf(a, b);
      assert h > 0;
      assert a == a % b + (a / b) * b;
      Combination(h, a % b, b, a / b);
    }
  }

  /** Every common divisor of the arguments divides the result. */
  lemma {:induction false} HcfGreatest(a: nat, b: nat, d: nat)
    requires d > 0 && Divides(d, a) && Divides(d, b)
    ensures Divides(d, Hcf(a, b))
    decreases b
  {
    if b != 0 {
      assert a % b == a + (-(a / b)) * b;
      Combination(d, a, b, -(a / b));
      HcfGreatest(b, a % b, d);
    }
  }

  // ---------------------------------------------------------------------------
  // The poll interval

  ghost predicate DividesAll(d: nat, xs: seq<nat>) {
    forall i :: 0 <= i < |xs| ==> Divides(d, xs[i])
  }

  /** One round of the reduction: neighbours paired off, an odd last element kept. */
  function PairStep(xs: seq<nat>): (ys: seq<nat>)
    ensures |ys| == (|xs| + 1) / 2
  {
    seq((|xs| + 1) / 2, j requires 0 <= j < (|xs| + 1) / 2 =>
      if 2 * j + 1 < |xs| then Hcf(xs[2 * j], xs[2 * j + 1]) else xs[2 * j])
  }

  /** A round keeps the common divisors: the positive divisors of all elements are the same before and after. */
  lemma PairStepDivisors(xs: seq<nat>, d: nat)
    requires d > 0
    ensures DividesAll(d, xs) <==> DividesAll(d, PairStep(xs))
  {
    if DividesAll(d, xs) {
      PairStepKeeps(xs, d);
    }
    if DividesAll(d, PairStep(xs)) {
      PairStepRestores(xs, d);
    }
  }

  lemma PairStepKeeps(xs: seq<nat>, d: nat)
    requires d > 0 && DividesAll(d, xs)
    ensures DividesAll(d, PairStep(xs))
  {
    var ys := PairStep(xs);
    forall j | 0 <= j < |ys| ensures Divides(d, ys[j]) {
      if 2 * j + 1 < |xs| {
        HcfGreatest(xs[2 * j], xs[2 * j + 1], d);
      }
    }
  }

  lemma PairStepRestores(xs: seq<nat>, d: nat)
    requires d > 0 && DividesAll(d, PairStep(xs))
    ensures DividesAll(d, xs)
  {
    var ys := PairStep(xs);
    forall i | 0 <= i < |xs| ensures Divides(d, xs[i]) {
      var j := i / 2;
      assert j < |ys| && (i == 2 * j || i == 2 * j + 1);
      assert Divides(d, ys[j]);
      if 2 * j + 1 < |xs| {
        assert ys[j] == Hcf(xs[2 * j], xs[2 * j + 1]);
        HcfDivides(xs[2 * j], xs[2 * j + 1]);
        assert Divides(ys[j], xs[i]);
        DividesTrans(d, ys[j], xs[i]);
      } else {
        assert ys[j] == xs[i];
      }
    }
  }

  /** Indexing the first element of an empty list. */
  datatype IndexError = IndexError

  /** The interval of each channel of a node's table, in the order of its keys. */
  function IntervalsBy<T>(keys: seq<string>, table: map<string, T>, interval: T -> nat): (xs: seq<nat>)
    requires forall i :: 0 <= i < |keys| ==> keys[i] in table
    ensures |xs| == |keys| && forall i :: 0 <= i < |keys| ==> xs[i] == interval(table[keys[i]])
  {
    seq(|keys|, i requires 0 <= i < |keys| => interval(table[keys[i]]))
  }

  /**
   * `poll_interval` over the channel intervals: reduce pairwise until one value is left.
   * That value divides every interval and every common divisor divides it: it is their
   * greatest common divisor. An empty list raises.
   */
  method PollInterval(intervals: seq<nat>) returns (r: Result<nat, IndexError>)
    ensures r.Err? <==> intervals == []
    ensures r.Ok? ==> DividesAll(r.value, intervals)
    ensures r.Ok? ==> forall d :: d > 0 && DividesAll(d, intervals) ==> Divides(d, r.value)
  {
    var xs := intervals;
    while |xs| > 1
      invariant (xs == []) == (intervals == [])
      invariant forall d :: d > 0 ==> (DividesAll(d, xs) <==> DividesAll(d, intervals))
      decreases |xs|
    {
      forall d | d > 0 ensures DividesAll(d, xs) <==> DividesAll(d, PairStep(xs)) {
        PairStepDivisors(xs, d);
      }
      xs := PairStep(xs);
    }
    if xs == [] {
      return Err(IndexError);
    }
    LastStanding(xs, intervals);
    r := Ok(xs[0]);
  }

  /** The one value left when the reduction ends is the greatest common divisor of the intervals. */
  lemma LastStanding(xs: seq<nat>, intervals: seq<nat>)
    requires |xs| == 1
    requires forall d :: d > 0 ==> (DividesAll(d, xs) <==> DividesAll(d, intervals))
    ensures DividesAll(xs[0], intervals)
    ensures forall d :: d > 0 && DividesAll(d, intervals) ==> Divides(d, xs[0])
  {
    var g := xs[0];
    forall d | d > 0 && DividesAll(d, intervals) ensures Divides(d, g) {
      assert DividesAll(d, xs);
    }
    if g > 0 {
      MulMod(g, 1);
      assert DividesAll(g, xs);
    } else {
      forall i | 0 <= i < |intervals| ensures Divides(g, intervals[i]) {
        var x := intervals[i];
        assert DividesAll(x + 1, xs);
        assert Divides(x + 1, x);
      }
    }
  }

  /** The intervals 5 min, 12 min and 1 h are polled every minute. */
  lemma PollIntervalExample(g: nat)
    requires DividesAll(g, [300, 720, 3600])
    requires forall d :: d > 0 && DividesAll(d, [300, 720, 3600]) ==> Divides(d, g)
    ensures g == 60
  {
    var xs: seq<nat> := [300, 720, 3600];
    assert Divides(g, xs[0]) && Divides(g, xs[1]);
    assert g > 0;
    assert g <= 300 by {
      assert 300 % g == 0;
      MulBounds(g, 300 / g);
    }
    assert DividesAll(60, xs);
    assert g % 60 == 0;
    assert g == 60 || g == 120 || g == 180 || g == 240 || g == 300;
    assert 300 % 120 == 60 && 300 % 180 == 120 && 300 % 240 == 60 && 720 % 300 == 120;
  }

  // ---------------------------------------------------------------------------
  // The value cast

  /** The error the cast raises: ValueError when `float()` rejects a string, TypeError for bytes. */
  datatype CastError = CastValueError | CastTypeError

  /** `str.isnumeric()` on ASCII text: a non-empty run of digits. */
  predicate IsNumericText(s: string) {
    s != [] && AllDigits(s)
  }

  /** `float(s)` on an optionally signed decimal numeral; None where Python raises ValueError. */
  function FloatOf(s: string): (r: Option<real>)
    ensures s != [] && s[0] == '-' && r.Some? ==> r.value <= 0.0
    ensures (s == [] || (s[0] != '-' && s[0] != '+')) && (forall k :: 0 <= k < |s| ==> PlainCodec.IsNumChar(s[k]))
            ==> r == PlainCodec.DecimalValue(s)
  {
    var signed := s != [] && (s[0] == '-' || s[0] == '+');
    var body := if signed then s[1..] else s;
    if forall k :: 0 <= k < |body| ==> PlainCodec.IsNumChar(body[k]) then
      PlainCodec.DecimalValueDefined(body);
      match PlainCodec.DecimalValue(body)
      case None => None
      case Some(x) => Some(if signed && s[0] == '-' then -x else x)
    else None
  }

  /**
   * `__cast_value`: a numeric string as an integer, any other string as a float, a number
   * as it is; then scaled by `factor`.
   */
  function CastValue(v: Value, factor: real): (r: Result<real, CastError>)
    ensures v.Int? ==> r.Ok? && r.value == (v.i as real) * factor
    ensures v.Float? ==> r.Ok? && r.value == v.r * factor
    ensures v.Binary? ==> r.Err? && r.error == CastTypeError
    ensures v.Text? && IsNumericText(v.s) ==> r.Ok? && r.value == (DigitsValue(v.s) as real) * factor
    ensures v.Text? ==> (r.Err? <==> FloatOf(v.s).None?)
  {
    match v
    case Text(s) =>
      if IsNumericText(s) then
        CastNumeric(s);
        Ok((DigitsValue(s) as real) * factor)
      else
        (match FloatOf(s)
         case None => Err(CastValueError)
         case Some(x) => Ok(x * factor))
    case Binary(_) => Err(CastTypeError)
    case Int(i) => Ok((i as real) * factor)
    case Float(x) => Ok(x * factor)
  }

  /** A numeric string is also a valid float, with the same value. */
  lemma CastNumeric(s: string)
    requires IsNumericText(s)
    ensures FloatOf(s) == Some(DigitsValue(s) as real)
  {
    assert s[0] != '-' && s[0] != '+';
    assert forall k :: 0 <= k < |s| ==> PlainCodec.IsNumChar(s[k]);
    assert '.' !in s by {
      forall k | 0 <= k < |s| ensures s[k] != '.' { assert IsDigit(s[k]); }
    }
    PlainCodec.DotCountNoDot(s);
  }

  /** The decimal text of a count reads back as that count, scaled. */
  lemma CastRoundTrip(n: nat, factor: real)
    ensures CastValue(Text(NatToString(n)), factor).Ok?
    ensures CastValue(Text(NatToString(n)), factor).value == (n as real) * factor
  {
    NatToStringRoundTrip(n);
    CastOfDigits(NatToString(n), n, factor);
  }

  lemma CastOfDigits(s: string, n: nat, factor: real)
    requires s != [] && AllDigits(s) && DigitsValue(s) == n
    ensures CastValue(Text(s), factor).Ok? && CastValue(Text(s), factor).value == (n as real) * factor
  {
    assert IsNumericText(s);
  }
}
