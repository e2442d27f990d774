/**
 * The string operations the temperature probe applies to file contents and to
 * the sensor utility's output: Python's `str.strip()`, `str.lower()`, the `in`
 * substring test, `str.split('\n')` and `int()` on a decimal literal.
 */
module Text {
  import opened Optional

  /** Python's `str.isspace()` characters, the set `str.strip()` removes. */
  predicate IsSpace(c: char) {
    || c == ' '
    || ('\t' <= c <= '\r')
    || ('\U{1C}' <= c <= '\U{1F}')
    || c == '\U{85}' || c == '\U{A0}' || c == '\U{1680}'
    || ('\U{2000}' <= c <= '\U{200A}')
    || c == '\U{2028}' || c == '\U{2029}' || c == '\U{202F}' || c == '\U{205F}' || c == '\U{3000}'
  }

  /** Removes the longest all-whitespace prefix. */
  function TrimStart(s: string): (r: string)
    ensures |r| <= |s| && r == s[|s| - |r|..]
    ensures forall i :: 0 <= i < |s| - |r| ==> IsSpace(s[i])
    ensures r == [] || !IsSpace(r[0])
    decreases |s|
  {
    if |s| > 0 && IsSpace(s[0]) then TrimStart(s[1..]) else s
  }

  /** Removes the longest all-whitespace suffix. */
  function TrimEnd(s: string): (r: string)
    ensures |r| <= |s| && r == s[..|r|]
    ensures forall i :: |r| <= i < |s| ==> IsSpace(s[i])
    ensures r == [] || !IsSpace(r[|r| - 1])
    decreases |s|
  {
    if |s| > 0 && IsSpace(s[|s| - 1]) then TrimEnd(s[..|s| - 1]) else s
  }

  /** Python's `s.strip()`: a contiguous slice of `s` with only whitespace cut off either end. */
  function Strip(s: string): (r: string)
    ensures exists i :: OccursAt(s, r, i)
                        && (forall j :: 0 <= j < i ==> IsSpace(s[j]))
                        && (forall j :: i + |r| <= j < |s| ==> IsSpace(s[j]))
    ensures r == [] || (!IsSpace(r[0]) && !IsSpace(r[|r| - 1]))
  {
    var t := TrimStart(s);
    var r := TrimEnd(t);
    StripAt(s, t, r);
    r
  }

  /** The trimmed text sits at the index where the leading whitespace ends. */
  lemma {:induction false} StripAt(s: string, t: string, r: string)
    requires |t| <= |s| && t == s[|s| - |t|..]
    requires |r| <= |t| && r == t[..|r|]
    requires forall j :: |r| <= j < |t| ==> IsSpace(t[j])
    ensures OccursAt(s, r, |s| - |t|)
    ensures forall j :: |s| - |t| + |r| <= j < |s| ==> IsSpace(s[j])
  {
    var i := |s| - |t|;
    assert s[i..i + |r|] == r;
    forall j | i + |r| <= j < |s|
      ensures IsSpace(s[j])
    {
      assert s[j] == t[j - i];
    }
  }

  /** Python's `c.lower()` on ASCII letters. */
  function LowerChar(c: char): char {
    if 'A' <= c <= 'Z' then (c as int + 32) as char else c
  }

  /** Python's `s.lower()`, character by character. */
  function Lower(s: string): (r: string)
    ensures |r| == |s|
    ensures forall i :: 0 <= i < |s| ==> r[i] == LowerChar(s[i])
  {
    seq(|s|, i requires 0 <= i < |s| => LowerChar(s[i]))
  }

  /** No upper-case ASCII letter survives lower-casing, and lower-casing twice is lower-casing once. */
  lemma LowerIsLower(s: string)
    ensures forall i :: 0 <= i < |Lower(s)| ==> !('A' <= Lower(s)[i] <= 'Z')
    ensures Lower(Lower(s)) == Lower(s)
  {
  }

  /** The lower-case word `t` occurs in `s` at index `i`, in any mix of ASCII case. */
  predicate CaseOccursAt(s: string, t: string, i: int) {
    0 <= i && i + |t| <= |s| && forall j :: 0 <= j < |t| ==> LowerChar(s[i + j]) == t[j]
  }

  /** A window of the lower-cased text is a window of the text read case-insensitively. */
  lemma {:induction false} LowerOccursAt(s: string, t: string, i: int)
    ensures OccursAt(Lower(s), t, i) <==> CaseOccursAt(s, t, i)
  {
    var l := Lower(s);
    if 0 <= i && i + |t| <= |s| {
      var w := l[i..i + |t|];
      assert forall j :: 0 <= j < |t| ==> w[j] == LowerChar(s[i + j]);
      if CaseOccursAt(s, t, i) {
        assert w == t;
      }
    }
  }

  /** `t in s.lower()` for a lower-case word `t`: some window of `s` is `t` up to case. */
  lemma {:induction false} HasSubstringLower(s: string, t: string)
    ensures HasSubstring(Lower(s), t) <==> exists i :: CaseOccursAt(s, t, i)
  {
    if HasSubstring(Lower(s), t) {
      var i :| OccursAt(Lower(s), t, i);
      LowerOccursAt(s, t, i);
    }
    if i :| CaseOccursAt(s, t, i) {
      LowerOccursAt(s, t, i);
    }
  }

  /** `t` occurs in `s` starting at index `i`. */
  predicate OccursAt(s: string, t: string, i: int) {
    0 <= i && i + |t| <= |s| && s[i..i + |t|] == t
  }

  /** Python's `t in s`: some position of `s` starts a copy of `t`. */
  function HasSubstring(s: string, t: string): (b: bool)
    ensures b <==> exists i :: OccursAt(s, t, i)
    decreases |s|
  {
    if |t| <= |s| && s[..|t|] == t then
      assert OccursAt(s, t, 0);
      true
    else if |s| == 0 then
      false
    else
      var b := HasSubstring(s[1..], t);
      assert b ==> exists i :: OccursAt(s, t, i) by {
        if b {
          var i :| OccursAt(s[1..], t, i);
          assert OccursAt(s, t, i + 1);
        }
      }
      assert (exists i :: OccursAt(s, t, i)) ==> b by {
        if i :| OccursAt(s, t, i) {
          assert i != 0;
          assert OccursAt(s[1..], t, i - 1);
        }
      }
      b
  }

  /** The case-insensitive keyword test on zone labels and sensor lines: "cpu" or "core". */
  predicate MentionsCpu(s: string) {
    var l := Lower(s);
    HasSubstring(l, "cpu") || HasSubstring(l, "core")
  }

  /** The keyword test ignores case: some window of `s` spells "cpu" or "core" in any mix of case. */
  lemma {:induction false} MentionsCpuIgnoresCase(s: string)
    ensures MentionsCpu(s) <==> exists i :: CaseOccursAt(s, "cpu", i) || CaseOccursAt(s, "core", i)
  {
    HasSubstringLower(s, "cpu");
    HasSubstringLower(s, "core");
  }

  /** Index of the first `c` in `s`. */
  function IndexOf(s: string, c: char): (k: nat)
    requires c in s
    ensures k < |s| && s[k] == c && c !in s[..k]
    decreases |s|
  {
    if s[0] == c then 0 else 1 + IndexOf(s[1..], c)
  }

  /** Joins lines with `'\n'` separators, the inverse of `SplitLines`. */
  function JoinLines(ls: seq<string>): string
    requires |ls| >= 1
  {
    if |ls| == 1 then ls[0] else ls[0] + "\n" + JoinLines(ls[1..])
  }

  /** Python's `s.split('\n')`: the newline-free pieces between separators, at least one. */
  function SplitLines(s: string): (ls: seq<string>)
    ensures |ls| >= 1
    ensures forall k :: 0 <= k < |ls| ==> '\n' !in ls[k]
    ensures JoinLines(ls) == s
    decreases |s|
  {
    if '\n' !in s then [s]
    else
      var k := IndexOf(s, '\n');
      var rest := SplitLines(s[k + 1..]);
      assert s == s[..k] + "\n" + s[k + 1..];
      [s[..k]] + rest
  }

  /** Splitting undoes joining: newline-free lines are recovered exactly. */
  lemma {:induction false} SplitJoin(ls: seq<string>)
    requires |ls| >= 1
    requires forall k :: 0 <= k < |ls| ==> '\n' !in ls[k]
    ensures SplitLines(JoinLines(ls)) == ls
    decreases |ls|
  {
    if |ls| > 1 {
      var s := JoinLines(ls);
      var tail := JoinLines(ls[1..]);
      assert s == ls[0] + "\n" + tail;
      assert s[|ls[0]|] == '\n';
      assert s[..|ls[0]|] == ls[0];
      assert IndexOf(s, '\n') == |ls[0]|;
      assert s[|ls[0]| + 1..] == tail;
      SplitJoin(ls[1..]);
      assert SplitLines(s) == [ls[0]] + ls[1..];
    }
  }

  predicate IsDigit(c: char) {
    '0' <= c <= '9'
  }

  /** A non-empty run of ASCII decimal digits. */
  predicate IsDigits(s: string) {
    |s| > 0 && forall i :: 0 <= i < |s| ==> IsDigit(s[i])
  }

  /** A slice that is all digits has a digit at every index of the text it is cut from. */
  lemma {:induction false} DigitsSlice(s: string, a: nat, b: nat)
    requires a <= b <= |s| && IsDigits(s[a..b])
    ensures forall j :: a <= j < b ==> IsDigit(s[j])
  {
    forall j | a <= j < b
      ensures IsDigit(s[j])
    {
      assert s[j] == s[a..b][j - a];
    }
  }

  predicate IsSign(c: char) {
    c == '+' || c == '-'
  }

  function DigitValue(c: char): nat
    requires IsDigit(c)
  {
    c as int - '0' as int
  }

  function DigitChar(d: nat): (c: char)
    requires d < 10
    ensures IsDigit(c) && DigitValue(c) == d
  {
    ('0' as int + d) as char
  }

  /** The number a string of decimal digits denotes, most significant first. */
  function DigitsValue(s: string): nat
    requires forall i :: 0 <= i < |s| ==> IsDigit(s[i])
    decreases |s|
  {
    if |s| == 0 then 0 else 10 * DigitsValue(s[..|s| - 1]) + DigitValue(s[|s| - 1])
  }

  /** Python's `str(n)` for a natural number. */
  function ShowNat(n: nat): (s: string)
    ensures IsDigits(s)
    decreases n
  {
    if n < 10 then [DigitChar(n)] else ShowNat(n / 10) + [DigitChar(n % 10)]
  }

  /** Python's `str(n)` for an integer. */
  function ShowInt(n: int): (s: string)
    ensures n >= 0 ==> IsDigits(s)
    ensures n < 0 ==> |s| > 1 && s[0] == '-' && IsDigits(s[1..])
  {
    if n >= 0 then ShowNat(n) else "-" + ShowNat(-n)
  }

  /** The literals `int()` accepts once the text is stripped: an optional sign, then digits. */
  predicate IsIntLiteral(s: string) {
    IsDigits(s) || (|s| > 0 && IsSign(s[0]) && IsDigits(s[1..]))
  }

  /** Python's `int(s)` on stripped text; `None` where Python raises `ValueError`. */
  function ParseInt(s: string): (r: Option<int>)
    ensures r.Some? <==> IsIntLiteral(s)
  {
    if IsDigits(s) then Some(DigitsValue(s))
    else if |s| > 0 && IsSign(s[0]) && IsDigits(s[1..]) then
      var v: int := DigitsValue(s[1..]);
      Some(if s[0] == '-' then -v else v)
    else None
  }

  lemma {:induction false} DigitsValueShowNat(n: nat)
    ensures DigitsValue(ShowNat(n)) == n
    decreases n
  {
    var s := ShowNat(n);
    if n >= 10 {
      assert s[..|s| - 1] == ShowNat(n / 10);
      DigitsValueShowNat(n / 10);
    }
  }

  /** `int(str(n)) == n`: the decimal rendering parses back to the same integer. */
  lemma ParseShowInt(n: int)
    ensures ParseInt(ShowInt(n)) == Some(n)
  {
    if n >= 0 {
      DigitsValueShowNat(n);
    } else {
      DigitsValueShowNat(-n);
      assert ShowInt(n)[1..] == ShowNat(-n);
    }
  }
}
