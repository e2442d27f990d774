/**
 * The temperature token the sensor strategy looks for on a line of the sensor
 * utility's report: the regular expression `([+-]?\d+\.\d+)°C`, its leftmost
 * match (the first element of `re.findall`), and the value `float()` gives
 * the captured number.
 */
module TempToken {
  import opened Optional
  import opened Search
  import opened Text

  const DegreeSign: char := '\U{B0}'

  /** A decimal literal `\d+\.\d+`: digits, one dot, digits. */
  predicate IsDecimal(t: string) {
    '.' in t && IsDigits(t[..IndexOf(t, '.')]) && IsDigits(t[IndexOf(t, '.') + 1..])
  }

  /** `[+-]?\d+\.\d+`, the captured group. */
  predicate IsSignedDecimal(t: string) {
    IsDecimal(t) || (|t| > 0 && IsSign(t[0]) && IsDecimal(t[1..]))
  }

  /** One whole match of `[+-]?\d+\.\d+°C`. */
  predicate IsTemperatureToken(t: string) {
    |t| >= 2 && t[|t| - 2] == DegreeSign && t[|t| - 1] == 'C' && IsSignedDecimal(t[..|t| - 2])
  }

  function Pow10(n: nat): (r: nat)
    ensures r >= 1
  {
    if n == 0 then 1 else 10 * Pow10(n - 1)
  }

  /** Python's `float()` of a decimal literal, exactly. */
  function DecimalValue(t: string): real
    requires IsDecimal(t)
  {
    var m := IndexOf(t, '.');
    DigitsValue(t[..m]) as real + DigitsValue(t[m + 1..]) as real / Pow10(|t| - m - 1) as real
  }

  /** The number a token denotes: `float()` of its captured group. */
  function TokenValue(t: string): real
    requires IsTemperatureToken(t)
  {
    var n := t[..|t| - 2];
    if IsDecimal(n) then DecimalValue(n)
    else if n[0] == '-' then -DecimalValue(n[1..])
    else DecimalValue(n[1..])
  }

  /** Length of the run of ASCII digits that starts at `i`. */
  function DigitRun(s: string, i: nat): (n: nat)
    requires i <= |s|
    ensures i + n <= |s|
    ensures forall j :: i <= j < i + n ==> IsDigit(s[j])
    ensures i + n < |s| ==> !IsDigit(s[i + n])
    decreases |s| - i
  {
    if i < |s| && IsDigit(s[i]) then 1 + DigitRun(s, i + 1) else 0
  }

  /**
   * The end of the match of `\d+\.\d+` that starts at `q`, if one does. Both
   * digit runs are taken whole: a shorter run would be followed by a digit
   * rather than by `.` or by what comes after the number.
   */
  function DecimalEnd(s: string, q: nat): (f: Option<nat>)
    requires q <= |s|
    ensures f.Some? ==> q < f.value <= |s|
  {
    var m := q + DigitRun(s, q);
    if m == q || m >= |s| || s[m] != '.' then None
    else
      var f := m + 1 + DigitRun(s, m + 1);
      if f == m + 1 then None else Some(f)
  }

  /**
   * The end of the match of `[+-]?\d+\.\d+°C` that starts at `p`, if one does.
   * An optional sign, the decimal, then the degree sign and `C`; since the
   * decimal's end is forced, at most one match starts at `p`.
   */
  function MatchAt(s: string, p: nat): (e: Option<nat>)
    requires p <= |s|
    ensures e.Some? ==> p < e.value <= |s|
  {
    var q := if p < |s| && IsSign(s[p]) then p + 1 else p;
    match DecimalEnd(s, q)
    case None => None
    case Some(f) =>
      if f + 2 > |s| || s[f] != DegreeSign || s[f + 1] != 'C' then None else Some(f + 2)
  }

  /** What `DecimalEnd` finds is a decimal literal. */
  lemma {:induction false} DecimalEndSound(s: string, q: nat)
    requires q <= |s| && DecimalEnd(s, q).Some?
    ensures IsDecimal(s[q..DecimalEnd(s, q).value])
  {
    var m := q + DigitRun(s, q);
    var f := m + 1 + DigitRun(s, m + 1);
    assert DecimalEnd(s, q).value == f;
    DecimalSlice(s, q, m, f);
  }

  /** What `MatchAt` finds is a match of the pattern. */
  lemma {:induction false} MatchAtSound(s: string, p: nat)
    requires p <= |s| && MatchAt(s, p).Some?
    ensures IsTemperatureToken(s[p..MatchAt(s, p).value])
  {
    var q, f := MatchAtParts(s, p);
    DecimalEndSound(s, q);
    TokenSlice(s, p, q, f);
  }

  /** A match found at `p`: where its decimal starts and ends, and the `°C` after it. */
  lemma {:induction false} MatchAtParts(s: string, p: nat) returns (q: nat, f: nat)
    requires p <= |s| && MatchAt(s, p).Some?
    ensures q == p || (q == p + 1 && IsSign(s[p]))
    ensures q <= |s| && DecimalEnd(s, q) == Some(f)
    ensures f + 2 == MatchAt(s, p).value <= |s|
    ensures s[f] == DegreeSign && s[f + 1] == 'C'
  {
    q := if p < |s| && IsSign(s[p]) then p + 1 else p;
    f := DecimalEnd(s, q).value;
  }

  /** A signed decimal at `p..f` followed by `°C` is a whole token. */
  lemma {:induction false} TokenSlice(s: string, p: nat, q: nat, f: nat)
    requires p <= q <= f && f + 2 <= |s|
    requires q == p || (q == p + 1 && IsSign(s[p]))
    requires IsDecimal(s[q..f])
    requires s[f] == DegreeSign && s[f + 1] == 'C'
    ensures IsTemperatureToken(s[p..f + 2])
  {
    var t := s[p..f + 2];
    assert t[..|t| - 2] == s[p..f];
    assert t[|t| - 2] == s[f] && t[|t| - 1] == s[f + 1];
    if q == p + 1 {
      assert s[p..f][1..] == s[q..f];
      assert s[p..f][0] == s[p];
    }
  }

  /** `s[q..f]` is digits, the dot at `m`, digits. */
  lemma {:induction false} DecimalSlice(s: string, q: nat, m: nat, f: nat)
    requires q < m && m + 1 < f <= |s|
    requires forall j :: q <= j < m ==> IsDigit(s[j])
    requires s[m] == '.'
    requires forall j :: m < j < f ==> IsDigit(s[j])
    ensures IsDecimal(s[q..f]) && IndexOf(s[q..f], '.') == m - q
  {
    var t := s[q..f];
    assert t[m - q] == '.';
    assert '.' !in t[..m - q] by {
      assert forall j :: 0 <= j < m - q ==> IsDigit(t[j]);
    }
    assert t[..m - q] == s[q..m];
    assert t[m - q + 1..] == s[m + 1..f];
  }

  /** The shape of a decimal literal read off at the index of its dot. */
  lemma {:induction false} DecimalParts(t: string)
    requires IsDecimal(t)
    ensures var m := IndexOf(t, '.');
            0 < m && m + 1 < |t|
            && (forall j :: 0 <= j < m ==> IsDigit(t[j]))
            && (forall j :: m < j < |t| ==> IsDigit(t[j]))
  {
    var m := IndexOf(t, '.');
    assert t[..m] == t[0..m];
    DigitsSlice(t, 0, m);
    DigitsSlice(t, m + 1, |t|);
  }

  /** A digit run bounded by a non-digit has exactly the length `DigitRun` reports. */
  lemma DigitRunIs(s: string, i: nat, n: nat)
    requires i + n < |s|
    requires forall j :: i <= j < i + n ==> IsDigit(s[j])
    requires !IsDigit(s[i + n])
    ensures DigitRun(s, i) == n
  {
  }

  /** A token at `p..e` is a signed decimal (digits from `q`) followed by `°C`. */
  lemma {:induction false} TokenSign(s: string, p: nat, e: nat) returns (q: nat)
    requires p <= e <= |s| && IsTemperatureToken(s[p..e])
    ensures q == p || (q == p + 1 && IsSign(s[p]))
    ensures q <= e - 2 && IsDecimal(s[q..e - 2])
    ensures s[e - 2] == DegreeSign && s[e - 1] == 'C'
  {
    var t := s[p..e];
    var n := t[..|t| - 2];
    assert n == s[p..e - 2];
    assert s[e - 2] == t[|t| - 2] && s[e - 1] == t[|t| - 1];
    if IsDecimal(n) {
      q := p;
    } else {
      q := p + 1;
      assert s[q..e - 2] == n[1..];
      assert s[p] == n[0];
    }
  }

  /** A decimal at `q..f` has its digits and its dot at these indices of `s`. */
  lemma {:induction false} DecimalIn(s: string, q: nat, f: nat) returns (m: nat)
    requires q <= f <= |s| && IsDecimal(s[q..f])
    ensures q < m && m + 1 < f
    ensures forall j :: q <= j < m ==> IsDigit(s[j])
    ensures s[m] == '.'
    ensures forall j :: m < j < f ==> IsDigit(s[j])
  {
    var d := s[q..f];
    DecimalParts(d);
    m := q + IndexOf(d, '.');
    assert forall j :: q <= j < f ==> s[j] == d[j - q];
  }

  /** `DecimalEnd` reads off a decimal from the positions of its dot and its end. */
  lemma {:induction false} DecimalEndOfParts(s: string, q: nat, m: nat, f: nat)
    requires q < m && m + 1 < f < |s|
    requires forall j :: q <= j < m ==> IsDigit(s[j])
    requires s[m] == '.'
    requires forall j :: m < j < f ==> IsDigit(s[j])
    requires !IsDigit(s[f])
    ensures DecimalEnd(s, q) == Some(f)
  {
    DigitRunIs(s, q, m - q);
    DigitRunIs(s, m + 1, f - (m + 1));
  }

  /** `MatchAt` reads off a match from the positions of its sign, dot and degree sign. */
  lemma {:induction false} MatchAtOfParts(s: string, p: nat, q: nat, m: nat, f: nat)
    requires q < m && m + 1 < f && f + 2 <= |s|
    requires q == p || (q == p + 1 && IsSign(s[p]))
    requires forall j :: q <= j < m ==> IsDigit(s[j])
    requires s[m] == '.'
    requires forall j :: m < j < f ==> IsDigit(s[j])
    requires s[f] == DegreeSign && s[f + 1] == 'C'
    ensures MatchAt(s, p) == Some(f + 2)
  {
    assert q == (if p < |s| && IsSign(s[p]) then p + 1 else p) by {
      if q == p {
        assert IsDigit(s[p]);
      }
    }
    DecimalEndOfParts(s, q, m, f);
  }

  /** Every match that starts at `p` is the one `MatchAt` finds. */
  lemma {:induction false} MatchAtComplete(s: string, p: nat, e: nat)
    requires p <= e <= |s| && IsTemperatureToken(s[p..e])
    ensures MatchAt(s, p) == Some(e)
  {
    var q := TokenSign(s, p, e);
    var m := DecimalIn(s, q, e - 2);
    MatchAtOfParts(s, p, q, m, e - 2);
  }

  /** The leftmost position of `s` where a match starts. */
  function FirstMatchStart(s: string): (k: Option<nat>)
    ensures k.Some? ==> k.value < |s| && MatchAt(s, k.value).Some?
    ensures k.Some? ==> forall j :: 0 <= j < k.value ==> MatchAt(s, j).None?
    ensures k.None? ==> forall j :: 0 <= j < |s| ==> MatchAt(s, j).None?
  {
    var starts := j => 0 <= j <= |s| && MatchAt(s, j).Some?;
    assert forall j :: 0 <= j < |s| ==> (starts(j) <==> MatchAt(s, j).Some?);
    FirstFrom(0, |s|, starts)
  }

  /** `float(re.findall(r'([+-]?\d+\.\d+)°C', line)[0])`, or `None` when there is no match. */
  function FirstToken(line: string): Option<real> {
    match FirstMatchStart(line)
    case None => None
    case Some(p) =>
      MatchAtSound(line, p);
      Some(TokenValue(line[p..MatchAt(line, p).value]))
  }

  /** A match of the token pattern inside `line`. */
  predicate TokenBetween(line: string, p: int, e: int) {
    0 <= p <= e <= |line| && IsTemperatureToken(line[p..e])
  }

  /**
   * `FirstToken` is the regular-expression search: `None` exactly when no
   * substring matches, otherwise the value of a match no other match starts
   * to the left of.
   */
  lemma {:induction false} FirstTokenLeftmost(line: string)
    ensures FirstToken(line).None? <==> forall p, e :: !TokenBetween(line, p, e)
    ensures FirstToken(line).Some? ==>
              exists p, e :: TokenBetween(line, p, e)
                          && FirstToken(line).value == TokenValue(line[p..e])
                          && forall p', e' :: p' < p ==> !TokenBetween(line, p', e')
  {
    var k := FirstMatchStart(line);
    forall p, e | TokenBetween(line, p, e)
      ensures k.Some? && k.value <= p
    {
      MatchAtComplete(line, p, e);
    }
    if k.Some? {
      var p := k.value;
      var e := MatchAt(line, p).value;
      MatchAtSound(line, p);
      assert TokenBetween(line, p, e);
    }
  }
}
