/**
 * Values shared by every reader: channel values, samples, discovered devices,
 * and the identifier normalisation `strip` used for meter-id and channel matching.
 */
module Common {
  import opened Wrappers

  /** An octet as read from a serial line or an I2C register. */
  newtype byte = x: int | 0 <= x < 256

  /** The value of a channel: readers deliver text, raw bytes, integers or floats. */
  datatype Value = Text(s: string) | Binary(b: seq<byte>) | Int(i: int) | Float(r: real)

  /** One measured quantity of a readout; `unit` is None for unit-less channels. */
  datatype ChannelValue = ChannelValue(channelName: string, value: Value, unit: Option<string>)

  /** One readout. `time` is the creation time in whole seconds. */
  datatype Sample = Sample(time: int, meterId: string, channels: seq<ChannelValue>)

  /** A unit found during discovery. */
  datatype Device = Device(identifier: string, tty: string, protocol: string, channels: seq<ChannelValue>)

  /** The `unit` key of an entry: missing, present with the value None, or present with a text. */
  datatype UnitKey = NoUnitKey | UnitNone | UnitText(text: string)

  /**
   * One entry of an SML value list as a dictionary: the keys the decoder set, an absent
   * `objName` or `value` key being None.
   */
  datatype Entry = Entry(objName: Option<string>, value: Option<Value>, unit: UnitKey)

  /** `'unit' in entry` */
  predicate HasUnitKey(e: Entry) { !e.unit.NoUnitKey? }
  /** `entry.get('unit')`: None for a missing key and for a key holding None. */
  function UnitOf(e: Entry): Option<string> { if e.unit.UnitText? then Some(e.unit.text) else None }

  /** `entry.get('objName', '')` */
  function Obis(e: Entry): string { e.objName.GetOr("") }
  /** `entry.get('value', '')` */
  function EntryValue(e: Entry): Value { e.value.GetOr(Text("")) }

  /** `Sample()` with its defaults: the current time, no meter id, no channels. */
  function NewSample(now: int): (s: Sample)
    ensures s.time == now && s.meterId == "" && s.channels == []
  {
    Sample(now, "", [])
  }

  // ---------------------------------------------------------------------------
  // Character classes of Python's `string` module (ASCII only)

  predicate IsDigit(c: char) { '0' <= c <= '9' }
  predicate IsUpper(c: char) { 'A' <= c <= 'Z' }
  predicate IsLower(c: char) { 'a' <= c <= 'z' }
  predicate IsAsciiLetter(c: char) { IsUpper(c) || IsLower(c) }

  /** `string.punctuation`: the 32 ASCII punctuation characters. */
  predicate IsPunctuation(c: char) {
    ('!' <= c <= '/') || (':' <= c <= '@') || ('[' <= c <= '`') || ('{' <= c <= '~')
  }

  /** Membership in LEGAL_CHARACTERS = digits + ascii_letters + punctuation. */
  predicate IsLegal(c: char) { IsDigit(c) || IsAsciiLetter(c) || IsPunctuation(c) }

  /** Characters Python's `str.strip()` removes (`str.isspace`). */
  predicate IsSpace(c: char) {
    var n := c as int;
    (9 <= n <= 13) || (28 <= n <= 32) || n == 0x85 || n == 0xA0 || n == 0x1680
    || (0x2000 <= n <= 0x200A) || n == 0x2028 || n == 0x2029 || n == 0x202F
    || n == 0x205F || n == 0x3000
  }

  function ToUpper(c: char): char {
    if IsLower(c) then (c as int - 32) as char else c
  }

  function ToLower(c: char): char {
    if IsUpper(c) then (c as int + 32) as char else c
  }

  function UpperAll(s: string): (r: string)
    ensures |r| == |s|
  {
    seq(|s|, i requires 0 <= i < |s| => ToUpper(s[i]))
  }

  function LowerAll(s: string): (r: string)
    ensures |r| == |s|
  {
    seq(|s|, i requires 0 <= i < |s| => ToLower(s[i]))
  }

  /** The comprehension `[char for char in string if char in LEGAL_CHARACTERS]`. */
  function KeepLegal(s: string): string {
    if s == [] then [] else (if IsLegal(s[0]) then [s[0]] else []) + KeepLegal(s[1..])
  }

  function TrimLeft(s: string): string {
    if s != [] && IsSpace(s[0]) then TrimLeft(s[1..]) else s
  }

  function TrimRight(s: string): string {
    if s != [] && IsSpace(s[|s| - 1]) then TrimRight(s[..|s| - 1]) else s
  }

  /** Python's `str.strip()` without arguments. */
  function Trim(s: string): string {
    TrimRight(TrimLeft(s))
  }

  /** `strip(string)`: keep the legal characters, trim whitespace, upper-case. */
  function Strip(s: string): string {
    UpperAll(Trim(KeepLegal(s)))
  }

  /** What `strip` can produce: digits, upper-case letters, punctuation. */
  predicate IsStripped(c: char) { IsDigit(c) || IsUpper(c) || IsPunctuation(c) }

  // ---------------------------------------------------------------------------
  // Lemmas about strip

  lemma {:induction false} KeepLegalIsLegal(s: string)
    ensures |KeepLegal(s)| <= |s|
    ensures forall i :: 0 <= i < |KeepLegal(s)| ==> IsLegal(KeepLegal(s)[i])
  {
    if s != [] {
      KeepLegalIsLegal(s[1..]);
    }
  }

  lemma {:induction false} KeepLegalAppend(a: string, b: string)
    ensures KeepLegal(a + b) == KeepLegal(a) + KeepLegal(b)
  {
    if a == [] {
      assert a + b == b;
    } else {
      assert (a + b)[0] == a[0];
      assert (a + b)[1..] == a[1..] + b;
      KeepLegalAppend(a[1..], b);
      var h := if IsLegal(a[0]) then [a[0]] else [];
      assert KeepLegal(a + b) == h + (KeepLegal(a[1..]) + KeepLegal(b));
      assert KeepLegal(a) == h + KeepLegal(a[1..]);
    }
  }

  lemma {:induction false} KeepLegalOfLegal(s: string)
    requires forall i :: 0 <= i < |s| ==> IsLegal(s[i])
    ensures KeepLegal(s) == s
  {
    if s != [] {
      KeepLegalOfLegal(s[1..]);
    }
  }

  /** The trailing `.strip()` in `strip` never removes anything: no legal character is whitespace. */
  lemma TrimIsNoOp(s: string)
    ensures Trim(KeepLegal(s)) == KeepLegal(s)
  {
    var t := KeepLegal(s);
    KeepLegalIsLegal(s);
    if t != [] {
      assert IsLegal(t[0]) && !IsSpace(t[0]);
      assert IsLegal(t[|t| - 1]) && !IsSpace(t[|t| - 1]);
    }
  }

  /** `strip` upper-cases the legal characters of its input, in order, and drops the rest. */
  lemma StripIsUpperOfLegal(s: string)
    ensures Strip(s) == UpperAll(KeepLegal(s))
  {
    TrimIsNoOp(s);
  }

  /** Every character of `strip(s)` is an ASCII digit, upper-case letter or punctuation mark. */
  lemma StripOnlyStrippedChars(s: string)
    ensures forall i :: 0 <= i < |Strip(s)| ==> IsStripped(Strip(s)[i])
  {
    StripIsUpperOfLegal(s);
    KeepLegalIsLegal(s);
  }

  /** `strip` never lengthens its input. */
  lemma StripLength(s: string)
    ensures |Strip(s)| <= |s|
  {
    StripIsUpperOfLegal(s);
    KeepLegalIsLegal(s);
  }

  /** `strip` on one character: an upper-cased legal character, or nothing. */
  lemma StripChar(c: char)
    ensures Strip([c]) == if IsLegal(c) then [ToUpper(c)] else []
  {
    StripIsUpperOfLegal([c]);
    assert KeepLegal([c]) == (if IsLegal(c) then [c] else []) + KeepLegal([]);
  }

  /** `strip` distributes over concatenation; with StripChar this fixes it on every string. */
  lemma StripAppend(a: string, b: string)
    ensures Strip(a + b) == Strip(a) + Strip(b)
  {
    StripIsUpperOfLegal(a + b);
    StripIsUpperOfLegal(a);
    StripIsUpperOfLegal(b);
    KeepLegalAppend(a, b);
  }

  /** `strip` is idempotent. */
  lemma StripIdempotent(s: string)
    ensures Strip(Strip(s)) == Strip(s)
  {
    var t := Strip(s);
    StripOnlyStrippedChars(s);
    assert forall i :: 0 <= i < |t| ==> IsLegal(t[i]);
    KeepLegalOfLegal(t);
    StripIsUpperOfLegal(t);
  }

  /** `strip` ignores ASCII letter case. */
  lemma StripIgnoresCase(s: string)
    ensures Strip(LowerAll(s)) == Strip(s)
  {
    if s == [] {
      assert LowerAll(s) == [];
    } else {
      var c := s[0];
      assert s == [c] + s[1..];
      assert LowerAll(s) == [ToLower(c)] + LowerAll(s[1..]);
      StripAppend([ToLower(c)], LowerAll(s[1..]));
      StripAppend([c], s[1..]);
      StripChar(c);
      StripChar(ToLower(c));
      StripIgnoresCase(s[1..]);
    }
  }

  // ---------------------------------------------------------------------------
  // Substrings (Python's `a in b` on strings)

  predicate IsPrefix(a: string, b: string) {
    |a| <= |b| && a == b[..|a|]
  }

  predicate IsSubstring(a: string, b: string) {
    IsPrefix(a, b) || (b != [] && IsSubstring(a, b[1..]))
  }

  lemma {:induction false} SubstringAt(a: string, b: string, k: nat)
    requires k + |a| <= |b| && b[k..k + |a|] == a
    ensures IsSubstring(a, b)
  {
    if k > 0 {
      assert b[1..][k - 1..k - 1 + |a|] == a;
      SubstringAt(a, b[1..], k - 1);
    }
  }

  lemma {:induction false} SubstringWitness(a: string, b: string) returns (k: nat)
    requires IsSubstring(a, b)
    ensures k + |a| <= |b| && b[k..k + |a|] == a
  {
    if IsPrefix(a, b) {
      k := 0;
    } else {
      var k' := SubstringWitness(a, b[1..]);
      k := k' + 1;
      assert b[k..k + |a|] == b[1..][k'..k' + |a|];
    }
  }

  /** `a` occurs in `b` starting at position `k`. */
  predicate OccursAt(a: string, b: string, k: int) {
    0 <= k && k + |a| <= |b| && b[k..k + |a|] == a
  }

  /** `a in b` holds exactly when `a` occurs at some position of `b`. */
  lemma SubstringIff(a: string, b: string)
    ensures IsSubstring(a, b) <==> exists k :: OccursAt(a, b, k)
  {
    if IsSubstring(a, b) {
      var k := SubstringWitness(a, b);
      assert OccursAt(a, b, k);
    }
    if exists k :: OccursAt(a, b, k) {
      var k :| OccursAt(a, b, k);
      SubstringAt(a, b, k);
    }
  }

  // ---------------------------------------------------------------------------
  // Decimal numerals: Python's `str(n)` and `int(s)` on ASCII digits

  function DigitChar(d: nat): char
    requires d < 10
  {
    ('0' as int + d) as char
  }

  function DigitValue(c: char): nat
    requires IsDigit(c)
  {
    c as int - '0' as int
  }

  predicate AllDigits(s: string) {
    forall i :: 0 <= i < |s| ==> IsDigit(s[i])
  }

  /** `int(s)` for a string of ASCII digits. */
  function DigitsValue(s: string): nat
    requires AllDigits(s)
  {
    if s == [] then 0 else DigitsValue(s[..|s| - 1]) * 10 + DigitValue(s[|s| - 1])
  }

  /** A non-zero multiple of a positive number is at least that number away from zero. */
  lemma MulBounds(d: int, k: int)
    requires d > 0
    ensures k >= 1 ==> d * k >= d
    ensures k <= -1 ==> d * k <= -d
  {
  }

  /** `str(n)` for a natural number. */
  function NatToString(n: nat): string
  {
    if n < 10 then [DigitChar(n)] else NatToString(n / 10) + [DigitChar(n % 10)]
  }

  /** `str(i)` for an integer. */
  function IntToString(i: int): string
  {
    if i < 0 then "-" + NatToString(-i) else NatToString(i)
  }

  /** `int(str(n)) == n`: the decimal rendering is a non-empty digit string that reads back as `n`. */
  lemma {:induction false} NatToStringRoundTrip(n: nat)
    ensures NatToString(n) != [] && AllDigits(NatToString(n))
    ensures DigitsValue(NatToString(n)) == n
  {
    if n >= 10 {
      NatToStringRoundTrip(n / 10);
      var s := NatToString(n);
      assert s[..|s| - 1] == NatToString(n / 10);
    }
  }
}
