/** The training script turns the age cell into a number by rendering the
    cell as a string and extracting the first match of the regular
    expression `(\d+)`, then casting it to float (dl.py line 29). A cell
    without any digit becomes NaN, modelled as `None`. */
module AgeExtraction {
  import opened Wrappers

  predicate IsDigit(c: char)
  {
    '0' <= c <= '9'
  }

  ghost predicate AllDigits(d: string)
  {
    forall k :: 0 <= k < |d| ==> IsDigit(d[k])
  }

  ghost predicate NoDigit(s: string)
  {
    forall k :: 0 <= k < |s| ==> !IsDigit(s[k])
  }

  /** `s[i..j]` is the leftmost maximal run of digits in `s`: no digit
      before it, only digits inside it, and no digit right after it. */
  ghost predicate LeftmostRun(s: string, i: int, j: int)
  {
    && 0 <= i < j <= |s|
    && NoDigit(s[..i])
    && AllDigits(s[i..j])
    && (j == |s| || !IsDigit(s[j]))
  }

  /** Decimal value of a digit string, most significant digit first. */
  function DigitsValue(d: string): (v: nat)
    requires AllDigits(d)
  {
    if |d| == 0 then 0
    else 10 * DigitsValue(d[..|d| - 1]) + (d[|d| - 1] as int - '0' as int)
  }

  /** The longest prefix of `s` made of digits (what a greedy `\d+`
      consumes once it has started). */
  function TakeDigits(s: string): (r: string)
    ensures r <= s
    ensures AllDigits(r)
    ensures |r| == |s| || !IsDigit(s[|r|])
  {
    if |s| > 0 && IsDigit(s[0]) then [s[0]] + TakeDigits(s[1..]) else []
  }

  /** First match of `(\d+)` in `s`, as a number; `None` when `s` has no
      digit at all. */
  function ExtractAge(s: string): (r: Option<nat>)
    ensures r.None? <==> NoDigit(s)
  {
    if |s| == 0 then None
    else if IsDigit(s[0]) then Some(DigitsValue(TakeDigits(s)))
    else
      var r := ExtractAge(s[1..]);
      assert NoDigit(s) <==> NoDigit(s[1..]) by {
        if NoDigit(s[1..]) {
          forall k | 0 <= k < |s| ensures !IsDigit(s[k]) {
            if k > 0 { assert s[k] == s[1..][k - 1]; }
          }
        }
      }
      r
  }

  lemma {:induction false} TakeDigitsRun(s: string, j: int)
    requires 0 <= j <= |s|
    requires AllDigits(s[..j])
    requires j == |s| || !IsDigit(s[j])
    ensures TakeDigits(s) == s[..j]
    decreases j
  {
    if j > 0 {
      assert IsDigit(s[..j][0]);
      assert s[1..][..j - 1] == s[..j][1..];
      TakeDigitsRun(s[1..], j - 1);
    }
  }

  /** Whatever the leftmost maximal run of digits is, extraction returns
      its value, so the result is exactly the value of that run. */
  lemma {:induction false} ExtractAgeIsLeftmostRun(s: string, i: int, j: int)
    requires LeftmostRun(s, i, j)
    ensures ExtractAge(s) == Some(DigitsValue(s[i..j]))
    decreases i
  {
    if i == 0 {
      assert s[..j] == s[i..j];
      TakeDigitsRun(s, j);
    } else {
      LeftmostRunTail(s, i, j);
      ExtractAgeIsLeftmostRun(s[1..], i - 1, j - 1);
    }
  }

  /** A run that does not start the string is, one position earlier, the
      leftmost run of the string's tail. */
  lemma LeftmostRunTail(s: string, i: int, j: int)
    requires LeftmostRun(s, i, j) && i > 0
    ensures !IsDigit(s[0])
    ensures LeftmostRun(s[1..], i - 1, j - 1)
    ensures s[1..][i - 1..j - 1] == s[i..j]
  {
    var t := s[1..];
    assert s[0] == s[..i][0];
    var before := t[..i - 1];
    forall m | 0 <= m < i - 1 ensures !IsDigit(before[m]) {
      assert before[m] == s[..i][m + 1];
    }
    assert t[i - 1..j - 1] == s[i..j];
    assert j - 1 == |t| || t[j - 1] == s[j];
  }

  /** Every string holding a digit has a leftmost maximal run of digits,
      so together with `ExtractAgeIsLeftmostRun` extraction is defined by
      that run whenever it is not missing. */
  lemma {:induction false} LeftmostRunExists(s: string)
    requires !NoDigit(s)
    ensures exists i, j :: LeftmostRun(s, i, j)
  {
    if IsDigit(s[0]) {
      var t := TakeDigits(s);
      assert s[0..|t|] == t;
      assert s[..0] == [];
      assert LeftmostRun(s, 0, |t|);
    } else {
      var k :| 0 <= k < |s| && IsDigit(s[k]);
      assert s[1..][k - 1] == s[k];
      LeftmostRunExists(s[1..]);
      var i, j :| LeftmostRun(s[1..], i, j);
      LeftmostRunCons(s, i, j);
    }
  }

  /** A non-digit put in front of a string moves its leftmost run one
      position to the right. */
  lemma LeftmostRunCons(s: string, i: int, j: int)
    requires |s| > 0 && !IsDigit(s[0])
    requires LeftmostRun(s[1..], i, j)
    ensures LeftmostRun(s, i + 1, j + 1)
  {
    var t := s[1..];
    var before, run := s[..i + 1], s[i + 1..j + 1];
    forall m | 0 <= m < i + 1 ensures !IsDigit(before[m]) {
      if m > 0 { assert before[m] == t[..i][m - 1]; }
    }
    assert run == t[i..j];
    assert j + 1 == |s| || s[j + 1] == t[j];
  }

  /** A non-empty string of digits extracts to its own value. */
  lemma AllDigitsExtract(d: string)
    requires |d| > 0 && AllDigits(d)
    ensures ExtractAge(d) == Some(DigitsValue(d))
  {
    assert d[..0] == [];
    assert d[0..|d|] == d;
    ExtractAgeIsLeftmostRun(d, 0, |d|);
  }

  /** Canonical decimal rendering of a natural number, no leading zeros. */
  function DecimalString(n: nat): (d: string)
    ensures |d| > 0 && AllDigits(d)
  {
    var c := ('0' as int + n % 10) as char;
    if n < 10 then [c] else DecimalString(n / 10) + [c]
  }

  /** Rendering a number and reading it back gives the number. */
  lemma {:induction false} DecimalRoundTrip(n: nat)
    ensures DigitsValue(DecimalString(n)) == n
  {
    var d := DecimalString(n);
    if n >= 10 {
      assert d[..|d| - 1] == DecimalString(n / 10);
      DecimalRoundTrip(n / 10);
    }
  }

  /** Extraction is idempotent on its own output: an age rendered back to
      a string, either as an integer ("25") or as the float the column is
      cast to ("25.0"), extracts to the same age. */
  lemma ExtractAgeIdempotent(n: nat)
    ensures ExtractAge(DecimalString(n)) == Some(n)
    ensures ExtractAge(DecimalString(n) + ".0") == Some(n)
  {
    var d := DecimalString(n);
    AllDigitsExtract(d);
    DecimalRoundTrip(n);
    var s := d + ".0";
    assert s[..0] == [];
    assert s[0..|d|] == d;
    ExtractAgeIsLeftmostRun(s, 0, |d|);
  }

  /** A missing cell renders as "nan", which holds no digit, so the age
      stays missing. */
  lemma MissingAgeStaysMissing()
    ensures ExtractAge("nan") == None
  {
  }
}
