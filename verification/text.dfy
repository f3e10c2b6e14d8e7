/** Character and substring operations the Python code relies on:
    the `in` operator on strings and `str.strip()` with no argument. */
module Text {

  /** `pat` occurs in `s` starting at position `i`. */
  ghost predicate OccursAt(pat: string, s: string, i: int)
  {
    0 <= i && i + |pat| <= |s| && s[i..i + |pat|] == pat
  }

  /** Declarative meaning of Python's `pat in s` for strings. */
  ghost predicate Occurs(pat: string, s: string)
  {
    exists i :: OccursAt(pat, s, i)
  }

  /** An occurrence either starts at the front or lies in the tail. */
  lemma OccursStep(pat: string, s: string)
    ensures Occurs(pat, s) <==> (pat <= s || (|s| > 0 && Occurs(pat, s[1..])))
  {
    if pat <= s {
      assert OccursAt(pat, s, 0);
    }
    if Occurs(pat, s) && !(pat <= s) {
      var i :| OccursAt(pat, s, i);
      assert i != 0;
      assert s[1..][i - 1..i - 1 + |pat|] == s[i..i + |pat|];
      assert OccursAt(pat, s[1..], i - 1);
    }
    if |s| > 0 && Occurs(pat, s[1..]) {
      var i :| OccursAt(pat, s[1..], i);
      assert s[1..][i..i + |pat|] == s[i + 1..i + 1 + |pat|];
      assert OccursAt(pat, s, i + 1);
    }
  }

  /** Executable substring test, Python's `pat in s`. */
  function Contains(s: string, pat: string): (b: bool)
    ensures b <==> Occurs(pat, s)
  {
    OccursStep(pat, s);
    if pat <= s then true
    else if |s| == 0 then false
    else Contains(s[1..], pat)
  }

  /** Python's `str.isspace()` on one character: the code points of
      Unicode bidirectional class WS, B or S, or general category Zs. */
  predicate IsSpace(c: char)
  {
    var n := c as int;
    || (0x09 <= n <= 0x0D)
    || (0x1C <= n <= 0x20)
    || n == 0x85 || n == 0xA0 || n == 0x1680
    || (0x2000 <= n <= 0x200A)
    || n == 0x2028 || n == 0x2029 || n == 0x202F
    || n == 0x205F || n == 0x3000
  }

  /** Every character of `s` is whitespace. */
  ghost predicate AllSpace(s: string)
  {
    forall k :: 0 <= k < |s| ==> IsSpace(s[k])
  }

  /** `s` neither starts nor ends with whitespace. */
  predicate Trimmed(s: string)
  {
    |s| == 0 || (!IsSpace(s[0]) && !IsSpace(s[|s| - 1]))
  }

  /** `str.lstrip()`: drops the leading whitespace, keeps the rest. */
  function StripLeft(s: string): (r: string)
    ensures |r| <= |s| && r == s[|s| - |r|..]
    ensures AllSpace(s[..|s| - |r|])
    ensures |r| == 0 || !IsSpace(r[0])
  {
    if |s| > 0 && IsSpace(s[0]) then
      var r := StripLeft(s[1..]);
      StripLeftStep(s, r);
      r
    else
      assert s[..0] == [];
      s
  }

  /** A suffix of the tail reached over whitespace only is a suffix of
      the whole string reached over whitespace only. */
  lemma StripLeftStep(s: string, r: string)
    requires |s| > 0 && IsSpace(s[0])
    requires |r| <= |s[1..]| && r == s[1..][|s[1..]| - |r|..]
    requires AllSpace(s[1..][..|s[1..]| - |r|])
    ensures |r| <= |s| && r == s[|s| - |r|..]
    ensures AllSpace(s[..|s| - |r|])
  {
    var rest := s[1..];
    assert rest[|rest| - |r|..] == s[|s| - |r|..];
    var head := s[..|s| - |r|];
    forall k | 0 <= k < |head| ensures IsSpace(head[k]) {
      if k > 0 { assert head[k] == rest[..|rest| - |r|][k - 1]; }
    }
  }

  /** `str.rstrip()`: drops the trailing whitespace, keeps the rest. */
  function StripRight(s: string): (r: string)
    ensures |r| <= |s| && r == s[..|r|]
    ensures AllSpace(s[|r|..])
    ensures |r| == 0 || !IsSpace(r[|r| - 1])
  {
    if |s| > 0 && IsSpace(s[|s| - 1]) then
      var r := StripRight(s[..|s| - 1]);
      StripRightStep(s, r);
      r
    else
      assert s[|s|..] == [];
      s
  }

  /** A prefix of the string without its last character, followed only by
      whitespace there, is followed only by whitespace in the whole string. */
  lemma StripRightStep(s: string, r: string)
    requires |s| > 0 && IsSpace(s[|s| - 1])
    requires |r| <= |s[..|s| - 1]| && r == s[..|s| - 1][..|r|]
    requires AllSpace(s[..|s| - 1][|r|..])
    ensures |r| <= |s| && r == s[..|r|]
    ensures AllSpace(s[|r|..])
  {
    var init := s[..|s| - 1];
    assert init[..|r|] == s[..|r|];
    var tail := s[|r|..];
    forall k | 0 <= k < |tail| ensures IsSpace(tail[k]) {
      if k < |init| - |r| { assert tail[k] == init[|r|..][k]; }
    }
  }

  /** `r` is the slice `s[i..j]` and only whitespace lies outside it. */
  ghost predicate SliceBetweenSpace(s: string, r: string, i: int, j: int)
  {
    0 <= i <= j <= |s| && r == s[i..j] && AllSpace(s[..i]) && AllSpace(s[j..])
  }

  /** `str.strip()`: the result is a slice of `s` with only whitespace
      outside it and no whitespace at either of its ends. */
  function Strip(s: string): (r: string)
    ensures exists i, j :: SliceBetweenSpace(s, r, i, j)
    ensures Trimmed(r)
  {
    StripSlice(s, StripLeft(s), StripRight(StripLeft(s)));
    StripRight(StripLeft(s))
  }

  /** Stripping the left end and then the right end leaves a trimmed
      slice with only whitespace on both sides of it. */
  lemma StripSlice(s: string, l: string, r: string)
    requires |l| <= |s| && l == s[|s| - |l|..]
    requires AllSpace(s[..|s| - |l|]) && (|l| == 0 || !IsSpace(l[0]))
    requires |r| <= |l| && r == l[..|r|]
    requires AllSpace(l[|r|..]) && (|r| == 0 || !IsSpace(r[|r| - 1]))
    ensures exists i, j :: SliceBetweenSpace(s, r, i, j)
    ensures Trimmed(r)
  {
    var i := |s| - |l|;
    var after := s[i + |r|..];
    assert r == s[i..i + |r|];
    assert AllSpace(after) by {
      forall k | 0 <= k < |after| ensures IsSpace(after[k]) {
        assert after[k] == l[|r|..][k];
      }
    }
    if |r| > 0 {
      assert r[0] == l[0];
    }
    assert SliceBetweenSpace(s, r, i, i + |r|);
  }

  /** Stripping leaves an already trimmed string alone. */
  lemma StripTrimmed(s: string)
    requires Trimmed(s)
    ensures Strip(s) == s
  {
  }

  /** Stripping is idempotent. */
  lemma StripIdempotent(s: string)
    ensures Strip(Strip(s)) == Strip(s)
  {
    StripTrimmed(Strip(s));
  }

  lemma {:induction false} StripLeftPadded(pad: string, t: string)
    requires AllSpace(pad)
    requires |t| == 0 || !IsSpace(t[0])
    ensures StripLeft(pad + t) == t
    decreases |pad|
  {
    if |pad| == 0 {
      assert pad + t == t;
    } else {
      assert (pad + t)[1..] == pad[1..] + t;
      StripLeftPadded(pad[1..], t);
    }
  }

  lemma {:induction false} StripRightPadded(t: string, pad: string)
    requires AllSpace(pad)
    requires |t| == 0 || !IsSpace(t[|t| - 1])
    ensures StripRight(t + pad) == t
    decreases |pad|
  {
    if |pad| == 0 {
      assert t + pad == t;
    } else {
      var tp := t + pad;
      assert tp[..|tp| - 1] == t + pad[..|pad| - 1];
      StripRightPadded(t, pad[..|pad| - 1]);
    }
  }

  /** Surrounding a trimmed string with whitespace and stripping it gives
      the string back: only leading and trailing whitespace is removed. */
  lemma StripPadded(pre: string, t: string, post: string)
    requires AllSpace(pre) && AllSpace(post)
    requires Trimmed(t)
    ensures Strip(pre + t + post) == t
  {
    assert pre + t + post == pre + (t + post);
    if |t| == 0 {
      assert t + post == post;
      StripLeftPadded(pre + post, []);
      assert pre + post + [] == pre + post;
      assert StripLeft(pre + t + post) == [];
    } else {
      StripLeftPadded(pre, t + post);
      StripRightPadded(t, post);
    }
  }
}
